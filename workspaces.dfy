/** `get_workspaces`: the profile list offered to a user, built from the
    workspaces the user is entitled to that have not yet expired, sorted by
    slug. It stamps `slug` and the `workspace` pod label into the shared
    configuration entries as it goes. */
module Workspaces {
  import opened Dates
  import opened Config
  import LexOrder

  /** The sort key `x.get("slug", "99_Z")`. */
  function SortKey(w: Workspace): string {
    w.slug.GetOr("99_Z")
  }

  /** `ws.get("end_date", "1900-01-01")`, already parsed. */
  function EndDateOf(w: Workspace): Date {
    w.endDate.GetOr(DefaultEndDate)
  }

  predicate Expired(w: Workspace, now: Moment) {
    PastEndDate(now, EndDateOf(w))
  }

  /** `strptime` accepts every end date the loop will parse. */
  predicate EndDatesParse(table: map<string, Workspace>, names: set<string>) {
    forall n :: n in names && n in table ==> ValidDate(EndDateOf(table[n]))
  }

  /** The names in `names` that resolve in the table and have not expired. */
  function Entitled(table: map<string, Workspace>, names: set<string>, now: Moment): set<string> {
    set n | n in names && n in table && !Expired(table[n], now)
  }

  /** The pod labels a permitted workspace gets: exactly its own name. */
  function WorkspaceLabels(name: string): map<string, string> {
    map["workspace" := name]
  }

  /** What one visit of the loop leaves in the table entry for `name`: the
      slug is written before the expiry test, the labels only after it, and
      not at all when the entry has no `kubespawner_override` (the visit
      then raises). */
  function Stamp(w: Workspace, name: string, now: Moment): Workspace {
    var named := w.(slug := Some(name));
    if Expired(w, now) || w.kubespawnerOverride.None? then named
    else named.(kubespawnerOverride := Some(w.kubespawnerOverride.value.(extraLabels := WorkspaceLabels(name))))
  }

  /** The table after the loop has visited every name in `visited`. */
  function StampAll(table: map<string, Workspace>, visited: set<string>, now: Moment): map<string, Workspace> {
    map k | k in table :: if k in visited then Stamp(table[k], k, now) else table[k]
  }

  /** The sort keys of a list, position by position. */
  function Slugs(s: seq<Workspace>): seq<string> {
    seq(|s|, i requires 0 <= i < |s| => SortKey(s[i]))
  }

  predicate Sorted(s: seq<Workspace>) {
    forall i, j :: 0 <= i < j < |s| ==> LexOrder.LessOrEqual(SortKey(s[i]), SortKey(s[j]))
  }

  predicate StrictlySorted(s: seq<Workspace>) {
    forall i, j :: 0 <= i < j < |s| ==> LexOrder.Less(SortKey(s[i]), SortKey(s[j]))
  }

  predicate DistinctKeys(s: seq<Workspace>) {
    forall i, j :: 0 <= i < j < |s| ==> SortKey(s[i]) != SortKey(s[j])
  }

  /** Prepending an element no greater than every element keeps a list sorted. */
  lemma ConsSorted(x: Workspace, t: seq<Workspace>)
    requires Sorted(t)
    requires forall y :: y in t ==> LexOrder.LessOrEqual(SortKey(x), SortKey(y))
    ensures Sorted([x] + t)
  {
    forall i, j | 0 <= i < j < |[x] + t|
      ensures LexOrder.LessOrEqual(SortKey(([x] + t)[i]), SortKey(([x] + t)[j]))
    {
      if i == 0 {
        assert ([x] + t)[j] == t[j - 1];
      }
    }
  }

  /** Prepending an element whose key no element has keeps the keys distinct. */
  lemma ConsDistinct(x: Workspace, t: seq<Workspace>)
    requires DistinctKeys(t)
    requires forall y :: y in t ==> SortKey(y) != SortKey(x)
    ensures DistinctKeys([x] + t)
  {
    forall i, j | 0 <= i < j < |[x] + t| ensures SortKey(([x] + t)[i]) != SortKey(([x] + t)[j]) {
      if i == 0 {
        assert ([x] + t)[j] == t[j - 1];
      }
    }
  }

  /** Places `w` before the first element whose key is not below its own. */
  function Insert(w: Workspace, s: seq<Workspace>): (r: seq<Workspace>)
    requires Sorted(s)
    ensures Sorted(r)
    ensures multiset(r) == multiset(s) + multiset{w}
    ensures forall x :: x in r <==> x == w || x in s
    decreases |s|
  {
    if s == [] then [w]
    else if LexOrder.LessOrEqual(SortKey(w), SortKey(s[0])) then
      assert forall y :: y in s ==> LexOrder.LessOrEqual(SortKey(w), SortKey(y)) by {
        forall y | y in s ensures LexOrder.LessOrEqual(SortKey(w), SortKey(y)) {
          if y != s[0] {
            LexOrder.LessOrEqualTransitive(SortKey(w), SortKey(s[0]), SortKey(y));
          }
        }
      }
      ConsSorted(w, s);
      [w] + s
    else
      assert s == [s[0]] + s[1..];
      var tail := Insert(w, s[1..]);
      LexOrder.LessAsymmetric(SortKey(s[0]), SortKey(w));
      ConsSorted(s[0], tail);
      [s[0]] + tail
  }

  /** `sorted(..., key=lambda x: x.get("slug", "99_Z"))`: an insertion sort,
      stable like Python's. */
  function SortBySlug(s: seq<Workspace>): (r: seq<Workspace>)
    ensures Sorted(r)
    ensures multiset(r) == multiset(s)
    ensures forall x :: x in r <==> x in s
  {
    if s == [] then []
    else
      assert s == [s[0]] + s[1..];
      Insert(s[0], SortBySlug(s[1..]))
  }

  lemma {:induction false} InsertKeepsDistinct(w: Workspace, s: seq<Workspace>)
    requires Sorted(s) && DistinctKeys(s)
    requires forall x :: x in s ==> SortKey(x) != SortKey(w)
    ensures DistinctKeys(Insert(w, s))
    decreases |s|
  {
    if s != [] && !LexOrder.LessOrEqual(SortKey(w), SortKey(s[0])) {
      assert s == [s[0]] + s[1..];
      InsertKeepsDistinct(w, s[1..]);
      ConsDistinct(s[0], Insert(w, s[1..]));
    } else {
      ConsDistinct(w, s);
    }
  }

  /** Sorting a list whose slugs are distinct yields distinct slugs. */
  lemma {:induction false} SortKeepsDistinct(s: seq<Workspace>)
    requires DistinctKeys(s)
    ensures DistinctKeys(SortBySlug(s))
  {
    if s != [] {
      assert s == [s[0]] + s[1..];
      SortKeepsDistinct(s[1..]);
      InsertKeepsDistinct(s[0], SortBySlug(s[1..]));
    }
  }

  /** Sorted and free of repeated slugs means strictly ascending. */
  lemma SortedDistinctIsStrict(s: seq<Workspace>)
    requires Sorted(s) && DistinctKeys(s)
    ensures StrictlySorted(s)
  {
    forall i, j | 0 <= i < j < |s| ensures LexOrder.Less(SortKey(s[i]), SortKey(s[j])) {
      LexOrder.LessOrEqualDistinct(SortKey(s[i]), SortKey(s[j]));
    }
  }

  /** Stated as a lemma so that the empty case of `StrictlySortedUnique`
      reaches its contradiction only through this call. */
  lemma FirstIsMember(s: seq<Workspace>)
    requires s != []
    ensures s[0] in s
  {
  }

  /** Two strictly ascending lists holding the same entries are the same
      list: the result does not depend on the order in which the loop visits
      the set of names. */
  lemma {:induction false} StrictlySortedUnique(a: seq<Workspace>, b: seq<Workspace>)
    requires StrictlySorted(a) && StrictlySorted(b)
    requires forall x :: x in a <==> x in b
    ensures a == b
    decreases |a|
  {
    if a == [] {
      if b != [] {
        FirstIsMember(b);
        assert false;
      }
    } else {
      assert a[0] in a;
      assert b != [];
      assert b[0] in b;
      if a[0] != b[0] {
        var j :| 0 <= j < |b| && b[j] == a[0];
        var i :| 0 <= i < |a| && a[i] == b[0];
        assert i > 0 && j > 0;
        LexOrder.LessTransitive(SortKey(a[0]), SortKey(a[i]), SortKey(b[j]));
        LexOrder.LessIrreflexive(SortKey(a[0]));
      }
      assert a == [a[0]] + a[1..] && b == [b[0]] + b[1..];
      forall x | x in a[1..] ensures x in b[1..] {
        var i :| 0 <= i < |a[1..]| && a[1..][i] == x;
        assert a[i + 1] == x;
        LexOrder.LessIrreflexive(SortKey(a[0]));
        assert x in b && x != b[0];
      }
      forall x | x in b[1..] ensures x in a[1..] {
        var i :| 0 <= i < |b[1..]| && b[1..][i] == x;
        assert b[i + 1] == x;
        LexOrder.LessIrreflexive(SortKey(b[0]));
        assert x in a && x != a[0];
      }
      StrictlySortedUnique(a[1..], b[1..]);
    }
  }

  /** A visited entry always carries its own name as slug; a permitted one
      also carries exactly the label `workspace: <name>` (any earlier labels
      are replaced); everything else in the entry is left as it was. */
  lemma StampEffect(w: Workspace, name: string, now: Moment)
    ensures Stamp(w, name, now).slug == Some(name)
    ensures Stamp(w, name, now).endDate == w.endDate && Stamp(w, name, now).storage == w.storage
    ensures Stamp(w, name, now).attributes == w.attributes
    ensures Stamp(w, name, now).kubespawnerOverride.Some? == w.kubespawnerOverride.Some?
    ensures !Expired(w, now) && w.kubespawnerOverride.Some? ==>
      Stamp(w, name, now).kubespawnerOverride.value.extraLabels == WorkspaceLabels(name)
      && Stamp(w, name, now).kubespawnerOverride.value.settings == w.kubespawnerOverride.value.settings
    ensures Expired(w, now) ==> Stamp(w, name, now).kubespawnerOverride == w.kubespawnerOverride
  {
  }

  /** Stamping the table again changes nothing and keeps the same entitled
      set: a second call returns the same list and leaves the same table. */
  lemma StampAllStable(table: map<string, Workspace>, names: set<string>, now: Moment)
    ensures Entitled(StampAll(table, names, now), names, now) == Entitled(table, names, now)
    ensures StampAll(StampAll(table, names, now), names, now) == StampAll(table, names, now)
  {
    var once := StampAll(table, names, now);
    assert forall k :: k in table ==> EndDateOf(once[k]) == EndDateOf(table[k]);
  }

  /** Visiting one more name stamps just that name's entry. */
  lemma StampAllStep(table: map<string, Workspace>, visited: set<string>, name: string, now: Moment)
    requires name in table
    ensures StampAll(table, visited + {name}, now) == StampAll(table, visited, now)[name := Stamp(table[name], name, now)]
  {
  }

  /** Visiting one more name adds it to the entitled set exactly when it
      resolves and has not expired. */
  lemma EntitledStep(table: map<string, Workspace>, visited: set<string>, name: string, now: Moment)
    ensures Entitled(table, visited + {name}, now)
      == if name in table && !Expired(table[name], now) then Entitled(table, visited, now) + {name}
         else Entitled(table, visited, now)
  {
  }

  /** A permutation keeps the set of slugs. */
  lemma PermutationSlugs(s: seq<Workspace>, t: seq<Workspace>)
    requires forall x :: x in s <==> x in t
    ensures forall n :: n in Slugs(s) <==> n in Slugs(t)
  {
    forall n ensures n in Slugs(s) ==> n in Slugs(t) {
      if n in Slugs(s) {
        var i :| 0 <= i < |s| && Slugs(s)[i] == n;
        assert s[i] in t;
        var j :| 0 <= j < |t| && t[j] == s[i];
        assert Slugs(t)[j] == n;
      }
    }
    forall n ensures n in Slugs(t) ==> n in Slugs(s) {
      if n in Slugs(t) {
        var j :| 0 <= j < |t| && Slugs(t)[j] == n;
        assert t[j] in s;
        var i :| 0 <= i < |s| && s[i] == t[j];
        assert Slugs(s)[i] == n;
      }
    }
  }

  /** Each list entry is the stamped table entry stored under its own slug. */
  ghost predicate StoredEntries(s: seq<Workspace>, table: map<string, Workspace>, stored: map<string, Workspace>, now: Moment) {
    forall i :: 0 <= i < |s| ==>
      SortKey(s[i]) in table && SortKey(s[i]) in stored
      && s[i] == Stamp(table[SortKey(s[i])], SortKey(s[i]), now)
      && s[i] == stored[SortKey(s[i])]
  }

  lemma PermutationStoredEntries(s: seq<Workspace>, t: seq<Workspace>, table: map<string, Workspace>, stored: map<string, Workspace>, now: Moment)
    requires forall x :: x in s <==> x in t
    requires StoredEntries(s, table, stored, now)
    ensures StoredEntries(t, table, stored, now)
  {
    forall i | 0 <= i < |t| ensures SortKey(t[i]) in table && SortKey(t[i]) in stored
      && t[i] == Stamp(table[SortKey(t[i])], SortKey(t[i]), now) && t[i] == stored[SortKey(t[i])]
    {
      assert t[i] in s;
    }
  }

  /** Every entitled entry has a `kubespawner_override`, so no visit raises. */
  predicate OverridesPresent(table: map<string, Workspace>, names: set<string>, now: Moment) {
    forall n :: n in Entitled(table, names, now) ==> table[n].kubespawnerOverride.Some?
  }

  /** How one visit of the loop ends. */
  datatype Visit = NotFound | Expiry | Permit(entry: Workspace) | KeyError

  /** What sorting the collected entries keeps and adds. */
  lemma SortedResult(permitted: seq<Workspace>, table: map<string, Workspace>, stored: map<string, Workspace>, now: Moment)
    requires DistinctKeys(permitted) && StoredEntries(permitted, table, stored, now)
    ensures StrictlySorted(SortBySlug(permitted))
    ensures forall n :: n in Slugs(permitted) <==> n in Slugs(SortBySlug(permitted))
    ensures StoredEntries(SortBySlug(permitted), table, stored, now)
  {
    var sorted := SortBySlug(permitted);
    SortKeepsDistinct(permitted);
    SortedDistinctIsStrict(sorted);
    PermutationSlugs(permitted, sorted);
    PermutationStoredEntries(permitted, sorted, table, stored, now);
  }

  /** One pass of the loop body for the name `userWs`. */
  method VisitWorkspace(config: ConfigStore, userWs: string, now: Moment) returns (v: Visit)
    modifies config
    ensures config.users == old(config.users)
    ensures userWs !in old(config.workspaces) ==> v == NotFound && config.workspaces == old(config.workspaces)
    ensures userWs in old(config.workspaces) ==>
      config.workspaces == old(config.workspaces)[userWs := Stamp(old(config.workspaces)[userWs], userWs, now)]
    ensures userWs in old(config.workspaces) ==>
      && (v == Expiry <==> Expired(old(config.workspaces)[userWs], now))
      && (v == KeyError <==> !Expired(old(config.workspaces)[userWs], now) && old(config.workspaces)[userWs].kubespawnerOverride.None?)
      && (v.Permit? ==> v.entry == config.workspaces[userWs])
      && v != NotFound
  {
    if userWs !in config.workspaces {
      // "Workspace ... not found for user ...": skipped
      return NotFound;
    }
    var ws := config.workspaces[userWs];
    var wsEndDate := ws.endDate.GetOr(DefaultEndDate);
    ws := ws.(slug := Some(userWs));
    config.workspaces := config.workspaces[userWs := ws];
    if PastEndDate(now, wsEndDate) {
      // expired: logged and skipped, but the slug stays written
      return Expiry;
    }
    if ws.kubespawnerOverride.None? {
      // `ws["kubespawner_override"]` raises
      return KeyError;
    }
    ws := ws.(kubespawnerOverride := Some(ws.kubespawnerOverride.value.(extraLabels := WorkspaceLabels(userWs))));
    config.workspaces := config.workspaces[userWs := ws];
    v := Permit(ws);
  }

  /** What the loop has established once it has visited `visited`: the
      table is stamped for those names, none of them raised, and `permitted`
      holds exactly the entitled ones among them, each once, as stored. */
  ghost predicate Collected(permitted: seq<Workspace>, table: map<string, Workspace>, stored: map<string, Workspace>,
                            visited: set<string>, now: Moment)
  {
    && stored == StampAll(table, visited, now)
    && OverridesPresent(table, visited, now)
    && (forall n :: n in Entitled(table, visited, now) <==> n in Slugs(permitted))
    && StoredEntries(permitted, table, stored, now)
    && (forall i :: 0 <= i < |permitted| ==> SortKey(permitted[i]) in visited)
    && DistinctKeys(permitted)
  }

  /** A visit that does not raise keeps `Collected`. */
  lemma CollectedStep(permitted: seq<Workspace>, table: map<string, Workspace>, stored: map<string, Workspace>,
                      visited: set<string>, name: string, now: Moment, stored': map<string, Workspace>, v: Visit)
    requires Collected(permitted, table, stored, visited, now) && name !in visited
    requires name !in table ==> v == NotFound && stored' == stored
    requires name in table ==> stored' == stored[name := Stamp(table[name], name, now)]
    requires name in table ==>
      && (v == Expiry <==> Expired(table[name], now))
      && (v == KeyError <==> !Expired(table[name], now) && table[name].kubespawnerOverride.None?)
      && (v.Permit? ==> v.entry == stored'[name])
      && v != NotFound
    requires !v.KeyError?
    ensures Collected(if v.Permit? then permitted + [v.entry] else permitted, table, stored', visited + {name}, now)
  {
    EntitledStep(table, visited, name, now);
    if name in table {
      StampAllStep(table, visited, name, now);
    }
    var next := if v.Permit? then permitted + [v.entry] else permitted;
    if v.Permit? {
      assert Slugs(next) == Slugs(permitted) + [name];
    }
    assert StoredEntries(next, table, stored', now);
  }

  /** The table as the loop leaves it when the visit of `name` raises: some
      of the names, `name` among them, have been visited. */
  ghost predicate PartlyStamped(stored: map<string, Workspace>, table: map<string, Workspace>, names: set<string>,
                                name: string, now: Moment)
  {
    exists visited :: visited <= names && name in visited && stored == StampAll(table, visited, now)
  }

  /** What `get_workspaces` promises, given the table before (`table`) and
      after (`stored`) the call and the user's collapsed name set `names`:
      - it raises exactly when some entitled entry has no `kubespawner_override`,
        naming such an entry, with the table stamped for the names visited so far;
      - otherwise the whole name set is stamped, and the result is strictly
        ascending by slug, holds exactly one entry per entitled name, and each
        entry is the stamped table entry stored under its slug. */
  ghost predicate GetWorkspacesOutcome(r: Result<seq<Workspace>, string>, table: map<string, Workspace>,
                                       stored: map<string, Workspace>, names: set<string>, now: Moment)
  {
    && (r.Success? <==> OverridesPresent(table, names, now))
    && (r.Failure? ==>
          && r.error in Entitled(table, names, now)
          && table[r.error].kubespawnerOverride.None?
          && PartlyStamped(stored, table, names, r.error, now))
    && (r.Success? ==>
          && stored == StampAll(table, names, now)
          && StrictlySorted(r.value)
          && (forall n :: n in Entitled(table, names, now) <==> n in Slugs(r.value))
          && StoredEntries(r.value, table, stored, now))
  }

  /** The raising exit of the loop meets the promise. */
  lemma FailureOutcome(table: map<string, Workspace>, stored: map<string, Workspace>, names: set<string>,
                       visited: set<string>, name: string, now: Moment)
    requires visited <= names && name in names && name !in visited
    requires OverridesPresent(table, visited, now)
    requires name in table && !Expired(table[name], now) && table[name].kubespawnerOverride.None?
    requires stored == StampAll(table, visited, now)[name := Stamp(table[name], name, now)]
    ensures GetWorkspacesOutcome(Failure(name), table, stored, names, now)
  {
    StampAllStep(table, visited, name, now);
    assert visited + {name} <= names;
    assert PartlyStamped(stored, table, names, name, now);
  }

  /** The normal exit of the loop, followed by the sort, meets the promise. */
  lemma SuccessOutcome(permitted: seq<Workspace>, table: map<string, Workspace>, stored: map<string, Workspace>,
                       names: set<string>, now: Moment)
    requires Collected(permitted, table, stored, names, now)
    ensures GetWorkspacesOutcome(Success(SortBySlug(permitted)), table, stored, names, now)
  {
    SortedResult(permitted, table, stored, now);
  }

  /** `get_workspaces(spawner)` for the user `user` at the instant `now`.
      `Failure(name)` is the `KeyError` raised on a permitted entry that has
      no `kubespawner_override`; the exception is not caught. */
  method GetWorkspaces(config: ConfigStore, user: string, now: Moment) returns (r: Result<seq<Workspace>, string>)
    requires ValidMoment(now)
    requires EndDatesParse(config.workspaces, UserWorkspaceNames(config.users, user))
    modifies config
    ensures config.users == old(config.users)
    ensures GetWorkspacesOutcome(r, old(config.workspaces), config.workspaces, UserWorkspaceNames(old(config.users), user), now)
  {
    var userWorkspaces := UserWorkspaceNames(config.users, user);
    ghost var table := config.workspaces;
    var permitted: seq<Workspace> := [];
    var remaining := userWorkspaces;
    while remaining != {}
      invariant remaining <= userWorkspaces
      invariant config.users == old(config.users)
      invariant Collected(permitted, table, config.workspaces, userWorkspaces - remaining, now)
      decreases remaining
    {
      ghost var visited := userWorkspaces - remaining;
      ghost var before := config.workspaces;
      var userWs :| userWs in remaining;
      remaining := remaining - {userWs};
      assert userWorkspaces - remaining == visited + {userWs};
      assert userWs in table <==> userWs in before;
      assert userWs in table ==> before[userWs] == table[userWs];
      var visit := VisitWorkspace(config, userWs, now);
      if visit.KeyError? {
        FailureOutcome(table, config.workspaces, userWorkspaces, visited, userWs, now);
        return Failure(userWs);
      }
      CollectedStep(permitted, table, before, visited, userWs, now, config.workspaces, visit);
      if visit.Permit? {
        permitted := permitted + [visit.entry];
      }
    }
    SuccessOutcome(permitted, table, config.workspaces, userWorkspaces, now);
    r := Success(SortBySlug(permitted));
  }

  /** Two strictly ascending lists with the same slugs, each entry the one
      stored under its slug in the same table, are the same list. */
  lemma SameStoredListsEqual(a: seq<Workspace>, b: seq<Workspace>, tableA: map<string, Workspace>,
                             tableB: map<string, Workspace>, stored: map<string, Workspace>, now: Moment)
    requires StrictlySorted(a) && StrictlySorted(b)
    requires forall n :: n in Slugs(a) <==> n in Slugs(b)
    requires StoredEntries(a, tableA, stored, now) && StoredEntries(b, tableB, stored, now)
    ensures a == b
  {
    forall x | x in a ensures x in b {
      var i :| 0 <= i < |a| && a[i] == x;
      assert Slugs(a)[i] == SortKey(x);
      assert SortKey(x) in Slugs(b);
      var j :| 0 <= j < |Slugs(b)| && Slugs(b)[j] == SortKey(x);
      assert b[j] == stored[SortKey(x)] == x;
    }
    forall x | x in b ensures x in a {
      var j :| 0 <= j < |b| && b[j] == x;
      assert Slugs(b)[j] == SortKey(x);
      assert SortKey(x) in Slugs(a);
      var i :| 0 <= i < |Slugs(a)| && Slugs(a)[i] == SortKey(x);
      assert a[i] == stored[SortKey(x)] == x;
    }
    StrictlySortedUnique(a, b);
  }

  /** A successful call has one possible outcome: whatever order the set of
      names is visited in, the returned list and the table left behind are
      the same. */
  lemma OutcomeUnique(r1: Result<seq<Workspace>, string>, r2: Result<seq<Workspace>, string>,
                      table: map<string, Workspace>, stored1: map<string, Workspace>,
                      stored2: map<string, Workspace>, names: set<string>, now: Moment)
    requires GetWorkspacesOutcome(r1, table, stored1, names, now) && r1.Success?
    requires GetWorkspacesOutcome(r2, table, stored2, names, now)
    ensures r2 == r1 && stored2 == stored1
  {
    SameStoredListsEqual(r1.value, r2.value, table, table, stored1, now);
  }

  /** Calling again on the table a successful call left behind, at the same
      instant, returns the same list and leaves the table as it was. */
  lemma SecondCallSame(r1: Result<seq<Workspace>, string>, r2: Result<seq<Workspace>, string>,
                       table: map<string, Workspace>, stored1: map<string, Workspace>,
                       stored2: map<string, Workspace>, names: set<string>, now: Moment)
    requires GetWorkspacesOutcome(r1, table, stored1, names, now) && r1.Success?
    requires GetWorkspacesOutcome(r2, stored1, stored2, names, now)
    ensures r2 == r1 && stored2 == stored1
  {
    StampAllStable(table, names, now);
    assert OverridesPresent(stored1, names, now);
    assert stored2 == stored1;
    forall i | 0 <= i < |r2.value| ensures r2.value[i] == stored1[SortKey(r2.value[i])] {
    }
    SameStoredListsEqual(r1.value, r2.value, table, stored1, stored1, now);
  }
}
