/** Who an alert is addressed to: the tables behind it, and the separately written queries that
    must agree about it. */
module Audience {
  import opened Text
  import opened Wire

  type Id = string

  datatype Tier = ReadOnly | Developer | PowerDev | Admin {
    function Rank(): nat {
      match this
      case ReadOnly => 0
      case Developer => 1
      case PowerDev => 2
      case Admin => 3
    }
  }

  datatype Severity = Info | Warning | Critical {
    function Rank(): nat {
      match this
      case Info => 1
      case Warning => 2
      case Critical => 3
    }
  }

  datatype Delivery = Off | Immediate | Hourly | Daily

  datatype User = User(tier: Tier, email: Option<string>, delivery: Delivery, minSeverity: Severity)

  /** A group an AD group is mapped to; a person added to a group by hand; an AD group a person
      is cached as being in. */
  datatype Mapping = Mapping(group: Id, dn: string, name: string)
  datatype LocalMember = LocalMember(group: Id, user: Id)
  datatype Cached = Cached(user: Id, dn: string)

  datatype Audience = ToUser(user: Id) | ToTier(minTier: Tier) | ToGroup(group: Id)
  datatype Addressee = Addressee(alert: Id, audience: Audience)

  datatype Tables = Tables(
    users: map<Id, User>,
    groups: set<Id>,
    mappings: set<Mapping>,
    locals: set<LocalMember>,
    cached: set<Cached>,
    audiences: set<Addressee>)

  predicate SameDN(a: string, b: string) {
    Lower(a) == Lower(b)
  }

  /** The foreign keys and unique indexes of the schema. */
  ghost predicate Keyed(t: Tables) {
    && (forall m :: m in t.mappings ==> m.group in t.groups)
    && (forall l :: l in t.locals ==> l.group in t.groups && l.user in t.users)
    && (forall c :: c in t.cached ==> c.user in t.users)
    && UniqueDNs(t.cached)
    && (forall m, n :: m in t.mappings && n in t.mappings && m.group == n.group && SameDN(m.dn, n.dn) ==> m == n)
  }

  ghost predicate UniqueDNs(cached: set<Cached>) {
    forall c, d :: c in cached && d in cached && c.user == d.user && SameDN(c.dn, d.dn) ==> c == d
  }

  // --- The inbox ---

  /** The viewer as the inbox knows them: the SuperAdmin has no user id. */
  datatype Viewer = Viewer(user: Option<Id>, tier: Tier)

  predicate InGroup(t: Tables, group: Id, user: Id) {
    || LocalMember(group, user) in t.locals
    || exists m, c :: m in t.mappings && c in t.cached && SameDN(c.dn, m.dn) && m.group == group && c.user == user
  }

  predicate Reaches(t: Tables, audience: Audience, v: Viewer) {
    match audience
    case ToUser(u) => v.user == Some(u)
    case ToTier(minTier) => minTier.Rank() <= v.tier.Rank()
    case ToGroup(g) => v.user.Some? && InGroup(t, g, v.user.value)
  }

  predicate Addressed(t: Tables, alert: Id, v: Viewer) {
    exists a :: a in t.audiences && a.alert == alert && Reaches(t, a.audience, v)
  }

  // --- The email recipients ---

  predicate WantsEmail(u: User, severity: Severity) {
    u.email.Some? && u.delivery != Off && u.minSeverity.Rank() <= severity.Rank()
  }

  /** The recipient query: three separate kinds of addressee, over the users table. */
  function Recipients(t: Tables, alert: Id, severity: Severity): set<Id> {
    var named := set a | a in t.audiences && a.alert == alert && a.audience.ToUser? :: a.audience.user;
    var floors := set a | a in t.audiences && a.alert == alert && a.audience.ToTier? :: a.audience.minTier.Rank();
    var groups := set a | a in t.audiences && a.alert == alert && a.audience.ToGroup? :: a.audience.group;
    var byHand := set l | l in t.locals && l.group in groups :: l.user;
    var byDirectory := set m, c | m in t.mappings && c in t.cached && m.group in groups && SameDN(c.dn, m.dn) :: c.user;
    set u | u in t.users && WantsEmail(t.users[u], severity)
            && (u in named || (exists f :: f in floors && f <= t.users[u].tier.Rank()) || u in byHand || u in byDirectory)
  }

  // --- The group page ---

  /** One row of the join behind the member list, before it is grouped by user. */
  datatype JoinRow = JoinRow(user: Id, local: Option<LocalMember>, cached: Option<Cached>, mapping: Option<Mapping>)

  function OrNull<T(==)>(rows: set<Option<T>>): set<Option<T>> {
    if rows == {} then {None} else rows
  }

  function LocalSide(t: Tables, group: Id, u: Id): set<Option<LocalMember>> {
    OrNull(set l | l in t.locals && l.user == u && l.group == group :: Some(l))
  }

  function CachedSide(t: Tables, u: Id): set<Option<Cached>> {
    OrNull(set c | c in t.cached && c.user == u :: Some(c))
  }

  function MappingSide(t: Tables, group: Id, c: Option<Cached>): set<Option<Mapping>> {
    OrNull(set m | m in t.mappings && m.group == group && c.Some? && SameDN(m.dn, c.value.dn) :: Some(m))
  }

  /** users LEFT JOIN local members LEFT JOIN the cache LEFT JOIN the mappings, less the rows
      with neither a local member nor a mapping. */
  function JoinRows(t: Tables, group: Id): set<JoinRow> {
    set u, l, c, m | u in t.users && l in LocalSide(t, group, u) && c in CachedSide(t, u) && m in MappingSide(t, group, c)
                     && (l.Some? || m.Some?) :: JoinRow(u, l, c, m)
  }

  datatype Member = Member(user: Id, viaADGroups: set<string>, addedManually: bool)

  function MemberOf(rows: set<JoinRow>, u: Id): Member {
    Member(u, set r | r in rows && r.user == u && r.mapping.Some? :: r.mapping.value.name,
           exists r :: r in rows && r.user == u && r.local.Some?)
  }

  function Members(t: Tables, group: Id): set<Member> {
    var rows := JoinRows(t, group);
    set r | r in rows :: MemberOf(rows, r.user)
  }

  /** The count the group list shows, from its own query: a UNION of user ids. */
  function MemberCount(t: Tables, group: Id): nat {
    |MemberIds(t, group)|
  }

  function MemberIds(t: Tables, group: Id): set<Id> {
    (set l | l in t.locals && l.group == group :: l.user)
    + (set m, c | m in t.mappings && c in t.cached && SameDN(c.dn, m.dn) && m.group == group :: c.user)
  }

  // --- The queries agree ---

  /** Of at least the severity a person asks for: anything for `info`, all but info for `warning`. */
  predicate SevereEnough(severity: Severity, least: Severity) {
    match least
    case Info => true
    case Warning => severity != Info
    case Critical => severity == Critical
  }

  lemma WantsEmailIff(u: User, severity: Severity)
    ensures WantsEmail(u, severity) <==> u.email.Some? && u.delivery != Off && SevereEnough(severity, u.minSeverity)
  {
  }

  /** An audience by tier is that tier and every higher one; one by name or group never reaches the
      SuperAdmin, who has no user id. */
  lemma WhomAudiencesReach(t: Tables, v: Viewer, minTier: Tier, user: Id, group: Id)
    ensures Reaches(t, ToTier(minTier), v) <==>
              match minTier
              case ReadOnly => true
              case Developer => v.tier != ReadOnly
              case PowerDev => v.tier == PowerDev || v.tier == Admin
              case Admin => v.tier == Admin
    ensures Reaches(t, ToUser(user), v) <==> v.user == Some(user)
    ensures v.user == None ==> !Reaches(t, ToGroup(group), v)
  {
  }

  /** A person is emailed about an alert exactly when the inbox shows it is addressed to them,
      and they have an address, have not turned email off, and want this severity. */
  lemma RecipientsAreTheAddressed(t: Tables, alert: Id, severity: Severity, u: Id)
    ensures u in Recipients(t, alert, severity) <==>
              && u in t.users && t.users[u].email.Some? && t.users[u].delivery != Off
              && SevereEnough(severity, t.users[u].minSeverity) && Addressed(t, alert, Viewer(Some(u), t.users[u].tier))
  {
    if u in t.users {
      WantsEmailIff(t.users[u], severity);
    }
    hide Lower, WantsEmail, SevereEnough;
    if u in t.users {
      var v := Viewer(Some(u), t.users[u].tier);
      var groups := set a | a in t.audiences && a.alert == alert && a.audience.ToGroup? :: a.audience.group;
      var floors := set a | a in t.audiences && a.alert == alert && a.audience.ToTier? :: a.audience.minTier.Rank();
      if Addressed(t, alert, v) {
        var a :| a in t.audiences && a.alert == alert && Reaches(t, a.audience, v);
        match a.audience
        case ToUser(_) =>
        case ToTier(f) => assert f.Rank() in floors;
        case ToGroup(g) => assert g in groups;
      }
      if exists f :: f in floors && f <= v.tier.Rank() {
        var f :| f in floors && f <= v.tier.Rank();
        var a :| a in t.audiences && a.alert == alert && a.audience.ToTier? && a.audience.minTier.Rank() == f;
        assert Reaches(t, a.audience, v);
      }
      GroupAddressees(t, alert, v, u, groups);
    }
  }

  lemma GroupAddressees(t: Tables, alert: Id, v: Viewer, u: Id, groups: set<Id>)
    requires v.user == Some(u)
    requires groups == set a | a in t.audiences && a.alert == alert && a.audience.ToGroup? :: a.audience.group
    ensures u in (set l | l in t.locals && l.group in groups :: l.user) ==> Addressed(t, alert, v)
    ensures u in (set m, c | m in t.mappings && c in t.cached && m.group in groups && SameDN(c.dn, m.dn) :: c.user) ==> Addressed(t, alert, v)
  {
    hide SameDN;
    forall g | g in groups && InGroup(t, g, u) ensures Addressed(t, alert, v) {
      assert Addressee(alert, ToGroup(g)) in t.audiences;
      assert Reaches(t, ToGroup(g), v);
    }
    forall l | l in t.locals && l.group in groups && l.user == u ensures Addressed(t, alert, v) {
      assert l == LocalMember(l.group, u);
      assert InGroup(t, l.group, u);
    }
    forall m, c | m in t.mappings && c in t.cached && m.group in groups && SameDN(c.dn, m.dn) && c.user == u
      ensures Addressed(t, alert, v)
    {
      assert InGroup(t, m.group, u);
    }
  }

  /** What one person's rows in the member join amount to. */
  lemma JoinFinds(t: Tables, group: Id, u: Id)
    requires Keyed(t)
    ensures (exists r :: r in JoinRows(t, group) && r.user == u) <==> InGroup(t, group, u)
    ensures (exists r :: r in JoinRows(t, group) && r.user == u && r.local.Some?) <==> LocalMember(group, u) in t.locals
    ensures forall m :: (exists r :: r in JoinRows(t, group) && r.user == u && r.mapping == Some(m)) <==>
                          m in t.mappings && m.group == group && (exists c :: c in t.cached && c.user == u && SameDN(c.dn, m.dn))
  {
    hide Lower;
    if LocalMember(group, u) in t.locals {
      JoinFindsLocal(t, group, u);
    }
    forall m, c | m in t.mappings && c in t.cached && SameDN(c.dn, m.dn) && m.group == group && c.user == u
      ensures exists r :: r in JoinRows(t, group) && r.user == u && r.mapping == Some(m)
    {
      JoinFindsMapped(t, group, u, m, c);
    }
    forall r | r in JoinRows(t, group) && r.user == u
      ensures r.local.Some? ==> r.local.value == LocalMember(group, u) && r.local.value in t.locals
      ensures r.mapping.Some? ==>
                && r.mapping.value in t.mappings && r.mapping.value.group == group
                && r.cached.Some? && r.cached.value in t.cached && r.cached.value.user == u && SameDN(r.cached.value.dn, r.mapping.value.dn)
      ensures r.local.Some? || r.mapping.Some?
    {
      assert r.local in LocalSide(t, group, u) && r.cached in CachedSide(t, u) && r.mapping in MappingSide(t, group, r.cached);
    }
  }

  lemma SomeRow<T>(rows: set<Option<T>>) returns (row: Option<T>)
    ensures row in OrNull(rows)
  {
    if rows == {} {
      row := None;
    } else {
      row :| row in rows;
    }
  }

  lemma JoinFindsLocal(t: Tables, group: Id, u: Id)
    requires Keyed(t) && LocalMember(group, u) in t.locals
    ensures exists r :: r in JoinRows(t, group) && r.user == u && r.local.Some?
  {
    hide SameDN;
    var l := Some(LocalMember(group, u));
    assert l in LocalSide(t, group, u);
    var c := SomeRow(set c | c in t.cached && c.user == u :: Some(c));
    var m := SomeRow(set m | m in t.mappings && m.group == group && c.Some? && SameDN(m.dn, c.value.dn) :: Some(m));
    assert c in CachedSide(t, u) && m in MappingSide(t, group, c);
    assert JoinRow(u, l, c, m) in JoinRows(t, group);
  }

  lemma JoinFindsMapped(t: Tables, group: Id, u: Id, m: Mapping, c: Cached)
    requires Keyed(t) && m in t.mappings && c in t.cached && SameDN(c.dn, m.dn) && m.group == group && c.user == u
    ensures exists r :: r in JoinRows(t, group) && r.user == u && r.mapping == Some(m)
  {
    var l := SomeRow(set l | l in t.locals && l.user == u && l.group == group :: Some(l));
    assert l in LocalSide(t, group, u);
    assert Some(c) in CachedSide(t, u);
    assert Some(m) in MappingSide(t, group, Some(c));
    assert JoinRow(u, l, Some(c), Some(m)) in JoinRows(t, group);
  }

  /** The member page lists exactly the people a group audience reaches, once each, and says why. */
  lemma MembersAreTheAudience(t: Tables, group: Id, u: Id, tier: Tier)
    requires Keyed(t)
    ensures (exists m :: m in Members(t, group) && m.user == u) <==> Reaches(t, ToGroup(group), Viewer(Some(u), tier))
    ensures forall m, n :: m in Members(t, group) && n in Members(t, group) && m.user == n.user ==> m == n
    ensures forall m :: m in Members(t, group) && m.user == u ==>
              && (m.addedManually <==> LocalMember(group, u) in t.locals)
              && (forall name :: name in m.viaADGroups <==>
                    exists g, c :: g in t.mappings && c in t.cached && SameDN(c.dn, g.dn) && g.group == group && c.user == u && g.name == name)
  {
    hide SameDN, JoinRows;
    JoinFinds(t, group, u);
    var rows := JoinRows(t, group);
    forall m | m in Members(t, group) ensures m == MemberOf(rows, m.user) && exists r :: r in rows && r.user == m.user {
    }
    if exists r :: r in rows && r.user == u {
      var r :| r in rows && r.user == u;
      assert MemberOf(rows, r.user) in Members(t, group);
    }
    forall name | name in MemberOf(rows, u).viaADGroups
      ensures exists g, c :: g in t.mappings && c in t.cached && SameDN(c.dn, g.dn) && g.group == group && c.user == u && g.name == name
    {
      var r :| r in rows && r.user == u && r.mapping.Some? && r.mapping.value.name == name;
      assert r.mapping == Some(r.mapping.value);
    }
    forall g, c | g in t.mappings && c in t.cached && SameDN(c.dn, g.dn) && g.group == group && c.user == u
      ensures g.name in MemberOf(rows, u).viaADGroups
    {
      var r :| r in rows && r.user == u && r.mapping == Some(g);
    }
  }

  lemma MemberIdsAre(t: Tables, group: Id, u: Id)
    ensures u in MemberIds(t, group) <==> InGroup(t, group, u)
  {
    hide SameDN;
    if LocalMember(group, u) in t.locals {
      assert u in (set l | l in t.locals && l.group == group :: l.user);
    }
    forall l | l in t.locals && l.group == group && l.user == u ensures InGroup(t, group, u) {
      assert l == LocalMember(group, u);
    }
  }

  /** The count in the group list is the number of entries on the member page. */
  lemma MemberCountIsTheNumberOfMembers(t: Tables, group: Id)
    requires Keyed(t)
    ensures MemberCount(t, group) == |Members(t, group)|
  {
    hide Reaches, InGroup, Keyed, JoinRows;
    var members := Members(t, group);
    var ids := set m | m in members :: m.user;
    forall u ensures u in ids <==> u in MemberIds(t, group) {
      MembersAreTheAudience(t, group, u, ReadOnly);
      MemberIdsAre(t, group, u);
      ReachesGroup(t, group, u);
    }
    assert ids == MemberIds(t, group);
    MembersAreTheAudience(t, group, "", ReadOnly);
    OneEach(members, ids);
  }

  lemma ReachesGroup(t: Tables, group: Id, u: Id)
    ensures Reaches(t, ToGroup(group), Viewer(Some(u), ReadOnly)) <==> InGroup(t, group, u)
  {
  }

  lemma {:induction false} OneEach(members: set<Member>, ids: set<Id>)
    requires forall m, n :: m in members && n in members && m.user == n.user ==> m == n
    requires ids == set m | m in members :: m.user
    ensures |members| == |ids|
    decreases |members|
  {
    if members != {} {
      var m :| m in members;
      var rest := members - {m};
      assert ids - {m.user} == set n | n in rest :: n.user;
      OneEach(rest, ids - {m.user});
    }
  }

  // --- Keeping the cache ---

  /** Some DN reads x in lower case, and none up to it reads y. */
  ghost predicate Precedes(dns: seq<string>, x: string, y: string) {
    exists a :: 0 <= a < |dns| && Lower(dns[a]) == x && forall b :: 0 <= b <= a ==> Lower(dns[b]) != y
  }

  /** Lower-cased, each once, in the order of first appearance. */
  method LowerDistinct(dns: seq<string>) returns (out: seq<string>)
    ensures forall i, j :: 0 <= i < j < |out| ==> Precedes(dns, out[i], out[j])
    ensures forall d :: d in out <==> exists i :: 0 <= i < |dns| && d == Lower(dns[i])
    ensures forall i, j :: 0 <= i < j < |out| ==> out[i] != out[j]
    ensures |out| <= |dns|
  {
    out := [];
    var seen: set<string> := {};
    for n := 0 to |dns|
      invariant forall d :: d in out <==> d in seen
      invariant forall d :: d in seen <==> exists i :: 0 <= i < n && d == Lower(dns[i])
      invariant forall i, j :: 0 <= i < j < |out| ==> out[i] != out[j]
      invariant forall i, j :: 0 <= i < j < |out| ==> Precedes(dns, out[i], out[j])
      invariant |out| <= n
    {
      var l := Lower(dns[n]);
      if l !in seen {
        forall i | 0 <= i < |out| ensures Precedes(dns, out[i], l) {
          assert out[i] in seen;
          var a :| 0 <= a < n && out[i] == Lower(dns[a]);
          assert forall b :: 0 <= b <= a ==> Lower(dns[b]) in seen;
        }
        seen := seen + {l};
        out := out + [l];
      }
    }
  }

  function WithUserDNs(cached: set<Cached>, user: Id, lowered: set<string>): set<Cached> {
    var kept := set c | c in cached && (c.user != user || Lower(c.dn) in lowered);
    kept + set d | d in lowered && !(exists c :: c in kept && c.user == user && SameDN(c.dn, d)) :: Cached(user, d)
  }

  function WithDNUsers(cached: set<Cached>, dn: string, users: set<Id>): set<Cached> {
    var kept := set c | c in cached && (!SameDN(c.dn, dn) || c.user in users);
    kept + set u | u in users && !(exists c :: c in kept && c.user == u && SameDN(c.dn, dn)) :: Cached(u, Lower(dn))
  }

  function Pruned(t: Tables): set<Cached> {
    set c | c in t.cached && exists m :: m in t.mappings && SameDN(m.dn, c.dn)
  }

  predicate NoRepeats(ids: seq<Id>) {
    forall i, j :: 0 <= i < j < |ids| ==> ids[i] != ids[j]
  }

  class AppGroups {
    var tables: Tables

    constructor (tables: Tables)
      requires Keyed(tables)
      ensures this.tables == tables
    {
      this.tables := tables;
    }

    /** What one person is cached as being in becomes exactly dns; an unknown person is an error. */
    method ReplaceUserMemberships(user: Id, dns: seq<string>) returns (ok: bool)
      requires Keyed(tables)
      modifies this`tables
      ensures Keyed(tables)
      ensures ok <==> dns == [] || user in tables.users
      ensures tables == if ok then old(tables).(cached := WithUserDNs(old(tables).cached, user, set i | 0 <= i < |dns| :: Lower(dns[i]))) else old(tables)
    {
      var lowered := LowerDistinct(dns);
      var wanted := set d | d in lowered;
      assert wanted == set i | 0 <= i < |dns| :: Lower(dns[i]);
      if lowered != [] && user !in tables.users {
        assert lowered[0] in lowered;
        return false;
      }
      if dns != [] {
        assert Lower(dns[0]) in lowered;
      }
      WithUserDNsKeeps(tables.cached, user, wanted);
      tables := tables.(cached := WithUserDNs(tables.cached, user, wanted));
      ok := true;
    }

    /** Who is cached as being in one AD group becomes exactly users; an unknown person, or one
        named twice, is an error and changes nothing. */
    method ReplaceMembersOfDN(dn: string, users: seq<Id>) returns (ok: bool)
      requires Keyed(tables)
      modifies this`tables
      ensures Keyed(tables)
      ensures ok <==> NoRepeats(users) && forall u :: u in users ==> u in tables.users
      ensures tables == if ok then old(tables).(cached := WithDNUsers(old(tables).cached, dn, set u | u in users)) else old(tables)
    {
      if !NoRepeats(users) || exists u :: u in users && u !in tables.users {
        return false;
      }
      WithDNUsersKeeps(tables.cached, dn, set u | u in users);
      tables := tables.(cached := WithDNUsers(tables.cached, dn, set u | u in users));
      ok := true;
    }

    method PruneUnmappedMemberships() returns (removed: nat)
      requires Keyed(tables)
      modifies this`tables
      ensures Keyed(tables)
      ensures tables == old(tables).(cached := Pruned(old(tables)))
      ensures removed == |old(tables).cached - Pruned(old(tables))|
    {
      removed := |tables.cached - Pruned(tables)|;
      tables := tables.(cached := Pruned(tables));
    }

    /** Deleting a group takes its mappings, manual members and audiences with it. */
    method DeleteGroup(group: Id) returns (found: bool)
      requires Keyed(tables)
      modifies this`tables
      ensures Keyed(tables)
      ensures found <==> group in old(tables).groups
      ensures tables == if found then WithoutGroup(old(tables), group) else old(tables)
    {
      found := group in tables.groups;
      if found {
        tables := WithoutGroup(tables, group);
      }
    }
  }

  function WithoutGroup(t: Tables, group: Id): Tables {
    t.(groups := t.groups - {group},
       mappings := (set m | m in t.mappings && m.group != group),
       locals := (set l | l in t.locals && l.group != group),
       audiences := (set a | a in t.audiences && a.audience != ToGroup(group)))
  }

  lemma WithUserDNsKeeps(cached: set<Cached>, user: Id, lowered: set<string>)
    requires UniqueDNs(cached) && forall d :: d in lowered ==> Lower(d) == d
    ensures UniqueDNs(WithUserDNs(cached, user, lowered))
    ensures forall c :: c in WithUserDNs(cached, user, lowered) ==> c in cached || c.user == user
  {
  }

  lemma WithDNUsersKeeps(cached: set<Cached>, dn: string, users: set<Id>)
    requires UniqueDNs(cached)
    ensures UniqueDNs(WithDNUsers(cached, dn, users))
    ensures forall c :: c in WithDNUsers(cached, dn, users) ==> c in cached || c.user in users
  {
    LowerIsIdempotent(dn);
  }

  ghost predicate IsCached(cached: set<Cached>, user: Id, dn: string) {
    exists c :: c in cached && c.user == user && SameDN(c.dn, dn)
  }

  lemma InGroupByCache(t: Tables, group: Id, user: Id)
    ensures InGroup(t, group, user) <==>
              LocalMember(group, user) in t.locals || exists m :: m in t.mappings && m.group == group && IsCached(t.cached, user, m.dn)
  {
    hide SameDN;
  }

  /** After a sign-in, a person is in a group through the directory exactly when one of its AD
      groups is among those just reported, whatever the case; nobody else's groups change. */
  lemma SignInDecidesMembership(t: Tables, user: Id, dns: seq<string>, group: Id, other: Id)
    requires Keyed(t)
    ensures var t' := t.(cached := WithUserDNs(t.cached, user, set i | 0 <= i < |dns| :: Lower(dns[i])));
            && (InGroup(t', group, user) <==>
                  || LocalMember(group, user) in t.locals
                  || exists m, i :: m in t.mappings && m.group == group && 0 <= i < |dns| && SameDN(m.dn, dns[i]))
            && (other != user ==> (InGroup(t', group, other) <==> InGroup(t, group, other)))
  {
    var lowered := set i | 0 <= i < |dns| :: Lower(dns[i]);
    var t' := t.(cached := WithUserDNs(t.cached, user, lowered));
    forall dn ensures IsCached(t'.cached, user, dn) <==> Lower(dn) in lowered {
      LowerIsIdempotent(dn);
      UserDNs(t.cached, user, lowered, dn);
    }
    forall dn ensures other != user ==> (IsCached(t'.cached, other, dn) <==> IsCached(t.cached, other, dn)) {
    }
    hide WithUserDNs, Lower, IsCached;
    InGroupByCache(t', group, user);
    InGroupByCache(t', group, other);
    InGroupByCache(t, group, other);
  }

  lemma UserDNs(cached: set<Cached>, user: Id, lowered: set<string>, dn: string)
    requires forall d :: d in lowered ==> Lower(d) == d
    ensures IsCached(WithUserDNs(cached, user, lowered), user, dn) <==> Lower(dn) in lowered
  {
    if Lower(dn) in lowered {
      var kept := set c | c in cached && (c.user != user || Lower(c.dn) in lowered);
      if !(exists c :: c in kept && c.user == user && SameDN(c.dn, Lower(dn))) {
        assert Cached(user, Lower(dn)) in WithUserDNs(cached, user, lowered);
      }
    }
  }

  /** After a backfill, a person is cached in the AD group exactly when they were named, and
      every other AD group's rows are untouched. */
  lemma BackfillDecidesMembership(t: Tables, dn: string, users: set<Id>, user: Id, other: string)
    requires Keyed(t)
    ensures var after := WithDNUsers(t.cached, dn, users);
            && (IsCached(after, user, dn) <==> user in users)
            && (!SameDN(other, dn) ==> (IsCached(after, user, other) <==> IsCached(t.cached, user, other)))
  {
    LowerIsIdempotent(dn);
    var kept := set c | c in t.cached && (!SameDN(c.dn, dn) || c.user in users);
    if user in users && !(exists c :: c in kept && c.user == user && SameDN(c.dn, dn)) {
      assert Cached(user, Lower(dn)) in WithDNUsers(t.cached, dn, users);
    }
    if IsCached(t.cached, user, other) && !SameDN(other, dn) {
      var c :| c in t.cached && c.user == user && SameDN(c.dn, other);
      assert c in kept;
    }
  }

  /** Pruning the cache takes exactly the rows of AD groups that no group is mapped to, and changes
      no group's members and no alert's addressees. */
  lemma PruningChangesNobody(t: Tables, v: Viewer, alert: Id, group: Id, user: Id)
    ensures forall c :: c in t.cached - Pruned(t) <==> c in t.cached && forall m :: m in t.mappings ==> !SameDN(m.dn, c.dn)
    ensures Pruned(t) <= t.cached
    ensures var t' := t.(cached := Pruned(t));
            && (InGroup(t', group, user) <==> InGroup(t, group, user))
            && (Addressed(t', alert, v) <==> Addressed(t, alert, v))
  {
    hide Lower;
    var t' := t.(cached := Pruned(t));
    forall g, u ensures InGroup(t', g, u) <==> InGroup(t, g, u) {
      if InGroup(t, g, u) && LocalMember(g, u) !in t.locals {
        var m, c :| m in t.mappings && c in t.cached && SameDN(c.dn, m.dn) && m.group == g && c.user == u;
        assert c in t'.cached;
      }
    }
    assert forall a :: a in t.audiences ==> (Reaches(t', a.audience, v) <==> Reaches(t, a.audience, v));
  }

  /** Deleting a group takes the alerts addressed to it from exactly those whom nothing else
      addresses, and changes no other group. */
  lemma DeletingAGroupUnaddresses(t: Tables, group: Id, alert: Id, v: Viewer, other: Id, user: Id)
    ensures var t' := WithoutGroup(t, group);
            && (Addressed(t', alert, v) <==>
                  exists a :: a in t.audiences && a.alert == alert && a.audience != ToGroup(group) && Reaches(t, a.audience, v))
            && !InGroup(t', group, user)
            && (other != group ==> (InGroup(t', other, user) <==> InGroup(t, other, user)))
  {
    hide SameDN;
    var t' := WithoutGroup(t, group);
    forall g, u ensures g != group ==> (InGroup(t', g, u) <==> InGroup(t, g, u)) {
      if g != group && InGroup(t, g, u) && LocalMember(g, u) !in t.locals {
        var m, c :| m in t.mappings && c in t.cached && SameDN(c.dn, m.dn) && m.group == g && c.user == u;
        assert m in t'.mappings;
      }
    }
    assert forall a :: a in t'.audiences ==> (Reaches(t', a.audience, v) <==> Reaches(t, a.audience, v));
  }
}
