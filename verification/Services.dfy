/**
 The services projection: List builds the sorted, filtered listing from scratch; Producer
 maintains an index of it change by change and emits it as sorted snapshots.
 */
module Services {
  import opened Common
  import opened Sorting

  datatype Unit = Unit(name: string, description: string, loadState: string, activeState: string, subState: string)

  datatype Service = Service(name: string, description: string, loadState: string, activeState: string,
                             subState: string, writable: bool)

  /** One unit transition. When removed, only the unit's name is meaningful. */
  datatype Change = Change(unit: Unit, removed: bool)

  /** The configured read and write scopes. */
  datatype Manager = Manager(readable: string -> bool, writable: string -> bool)

  function ToService(m: Manager, u: Unit): Service {
    Service(u.name, u.description, u.loadState, u.activeState, u.subState, m.writable(u.name))
  }

  /** The readable units, projected, in the order given. */
  function Visible(m: Manager, units: seq<Unit>): seq<Service> {
    if units == [] then []
    else Visible(m, Front(units)) + if m.readable(Last(units).name) then [ToService(m, Last(units))] else []
  }

  // ---------------------------------------------------------------- order on names

  /** Go's < on strings. */
  predicate Less(a: string, b: string) {
    b != [] && (a == [] || a[0] < b[0] || (a[0] == b[0] && Less(a[1..], b[1..])))
  }

  lemma {:induction false} LessTotal(a: string, b: string)
    ensures a == b || Less(a, b) || Less(b, a)
    ensures !(Less(a, b) && Less(b, a)) && !Less(a, a)
  {
    if a != [] && b != [] {
      LessTotal(a[1..], b[1..]);
      if a[0] == b[0] && a[1..] == b[1..] {
        assert a == [a[0]] + a[1..] && b == [b[0]] + b[1..];
      }
    }
    if a != [] { LessTotal(a[1..], a[1..]); }
  }

  lemma {:induction false} LessTransitive(a: string, b: string, c: string)
    requires Less(a, b) && Less(b, c)
    ensures Less(a, c)
  {
    if a != [] && a[0] == b[0] == c[0] {
      LessTransitive(a[1..], b[1..], c[1..]);
    }
  }

  /** The first position at which two strings part, and a comes before b there. */
  predicate PartsBelow(a: string, b: string, i: nat) {
    i < |a| && i < |b| && a[..i] == b[..i] && a[i] < b[i]
  }

  lemma PartsLater(a: string, b: string, i: nat)
    requires a != [] && b != [] && a[0] == b[0]
    ensures PartsBelow(a[1..], b[1..], i) <==> PartsBelow(a, b, i + 1)
  {
    if i + 1 <= |a| && i + 1 <= |b| {
      assert a[..i + 1] == [a[0]] + a[1..][..i] && b[..i + 1] == [b[0]] + b[1..][..i];
      if a[..i + 1] == b[..i + 1] { assert a[1..][..i] == a[..i + 1][1..] && b[1..][..i] == b[..i + 1][1..]; }
    }
  }

  /**
   Lexicographic order, ascending: a comes before b exactly when a is a proper prefix of b or
   has the smaller character where they first differ.
   */
  lemma {:induction false} LessIff(a: string, b: string)
    ensures Less(a, b) <==> (|a| < |b| && a == b[..|a|]) || exists i: nat :: PartsBelow(a, b, i)
  {
    if a != [] && b != [] && a[0] == b[0] {
      LessIff(a[1..], b[1..]);
      PrefixTail(a, b);
      if i: nat :| PartsBelow(a, b, i) {
        PartsLater(a, b, i - 1);
      }
      if i: nat :| PartsBelow(a[1..], b[1..], i) {
        PartsLater(a, b, i);
      }
    } else {
      PartsAtOnce(a, b);
    }
  }

  lemma PrefixTail(a: string, b: string)
    requires a != [] && b != [] && a[0] == b[0]
    ensures |a| < |b| && a == b[..|a|] <==> |a[1..]| < |b[1..]| && a[1..] == b[1..][..|a[1..]|]
  {
    if |a| < |b| {
      assert b[..|a|] == [b[0]] + b[1..][..|a| - 1] && a == [a[0]] + a[1..];
      assert b[1..][..|a| - 1] == b[..|a|][1..];
    }
  }

  lemma PartsLast(a: string, b: string, i: nat)
    requires PartsBelow(a, b, i)
    ensures i == 0 || a[0] == b[0]
  {
    if i > 0 { assert a[..i][0] == b[..i][0]; }
  }

  lemma PartsAtOnce(a: string, b: string)
    requires a == [] || b == [] || a[0] != b[0]
    ensures (exists i: nat :: PartsBelow(a, b, i)) <==> a != [] && b != [] && a[0] < b[0]
    ensures |a| < |b| && a == b[..|a|] <==> a == [] && b != []
  {
    if a != [] && b != [] && a[0] < b[0] { assert PartsBelow(a, b, 0); }
    forall i: nat | PartsBelow(a, b, i) ensures a != [] && b != [] && (i == 0 || a[0] == b[0]) {
      PartsLast(a, b, i);
    }
  }

  // ---------------------------------------------------------------- listings

  function ByName(): (Service, Service) -> bool {
    (a: Service, b: Service) => Less(a.name, b.name)
  }

  ghost predicate Sorted(s: seq<Service>) {
    Ordered(s, ByName())
  }

  ghost predicate DistinctNames(s: seq<Service>) {
    forall i, j :: 0 <= i < j < |s| ==> s[i].name != s[j].name
  }

  /** s holds every service of the index once, in any order. */
  ghost predicate Enumerates(s: seq<Service>, state: map<string, Service>) {
    && DistinctNames(s)
    && (forall x :: x in s ==> x.name in state && state[x.name] == x)
    && (forall n :: n in state ==> state[n].name == n && state[n] in s)
  }

  ghost predicate Listing(s: seq<Service>, state: map<string, Service>) {
    Sorted(s) && Enumerates(s, state)
  }

  lemma {:induction false} CountOnce(s: seq<Service>, x: Service)
    requires DistinctNames(s)
    ensures multiset(s)[x] == if x in s then 1 else 0
  {
    if s != [] {
      CountOnce(Front(s), x);
      assert s == Front(s) + [Last(s)];
      assert x == Last(s) ==> x !in Front(s);
    }
  }

  lemma CountTwice(s: seq<Service>, i: nat, j: nat)
    requires i < j < |s| && s[i] == s[j]
    ensures multiset(s)[s[i]] >= 2
  {
    assert s == s[..j] + s[j..];
    assert s[i] in s[..j] && s[j] in s[j..];
  }

  lemma DistinctUnderPermutation(a: seq<Service>, b: seq<Service>)
    requires multiset(a) == multiset(b) && DistinctNames(a)
    ensures DistinctNames(b)
  {
    MembersOfPermutation(a, b);
    forall i, j | 0 <= i < j < |b| ensures b[i].name != b[j].name {
      if b[i] == b[j] {
        CountTwice(b, i, j);
        CountOnce(a, b[i]);
      } else {
        assert b[i] in a && b[j] in a;
      }
    }
  }

  lemma SameMembersSameMultiset(a: seq<Service>, b: seq<Service>)
    requires DistinctNames(a) && DistinctNames(b)
    requires forall x :: x in a <==> x in b
    ensures multiset(a) == multiset(b)
  {
    forall x ensures multiset(a)[x] == multiset(b)[x] {
      CountOnce(a, x);
      CountOnce(b, x);
    }
  }

  lemma SmallestFirst(a: seq<Service>, x: Service)
    requires Sorted(a) && x in a
    ensures x == a[0] || !Less(x.name, a[0].name)
  {
  }

  lemma SameHead(a: seq<Service>, b: seq<Service>)
    requires Sorted(a) && Sorted(b) && multiset(a) == multiset(b) && DistinctNames(a) && a != []
    ensures b != [] && a[0] == b[0]
  {
    MembersOfPermutation(a, b);
    assert a[0] in b && b[0] in a;
    SmallestFirst(a, b[0]);
    SmallestFirst(b, a[0]);
    LessTotal(a[0].name, b[0].name);
  }

  lemma TailMultiset(a: seq<Service>)
    requires a != []
    ensures multiset(a[1..]) == multiset(a) - multiset{a[0]}
  {
    assert a == [a[0]] + a[1..];
  }

  /** Sorting by distinct names has one result: iteration order and algorithm do not show. */
  lemma {:induction false} SortedUnique(a: seq<Service>, b: seq<Service>)
    requires Sorted(a) && Sorted(b) && multiset(a) == multiset(b) && DistinctNames(a)
    ensures a == b
  {
    hide Less;
    if a == [] {
      assert |multiset(b)| == |multiset(a)| == 0;
    } else {
      SameHead(a, b);
      TailMultiset(a);
      TailMultiset(b);
      SortedUnique(a[1..], b[1..]);
      assert a == [a[0]] + a[1..] && b == [b[0]] + b[1..];
    }
  }

  lemma ListingUnique(a: seq<Service>, b: seq<Service>, state: map<string, Service>)
    requires Listing(a, state) && Listing(b, state)
    ensures a == b
  {
    SameMembersSameMultiset(a, b);
    SortedUnique(a, b);
  }

  lemma SortingEnumerates(out: seq<Service>, s: seq<Service>, state: map<string, Service>)
    requires SortedPermutation(out, s, ByName())
    ensures Enumerates(s, state) <==> Listing(out, state)
  {
    MembersOfPermutation(out, s);
    if Enumerates(s, state) { DistinctUnderPermutation(s, out); }
    if Listing(out, state) { DistinctUnderPermutation(out, s); }
  }

  // ---------------------------------------------------------------- the operations

  lemma NamesOrdered()
    ensures StrictWeakOrder(ByName())
  {
    forall a: Service, b: Service | Less(a.name, b.name) ensures !Less(b.name, a.name) {
      LessTotal(a.name, b.name);
    }
    forall a: Service, b: Service, c: Service | Less(a.name, c.name)
      ensures Less(a.name, b.name) || Less(b.name, c.name)
    {
      LessTotal(a.name, b.name);
      if Less(b.name, a.name) { LessTransitive(b.name, a.name, c.name); }
    }
  }

  method SortServices(s: seq<Service>) returns (out: seq<Service>)
    ensures SortedPermutation(out, s, ByName())
  {
    NamesOrdered();
    out := Slice(s, ByName());
  }

  /** All readable units as sorted services; None is the connection's error. */
  method List(m: Manager, listed: Option<seq<Unit>>) returns (r: Option<seq<Service>>)
    ensures r.Some? <==> listed.Some?
    ensures listed.Some? ==> SortedPermutation(r.value, Visible(m, listed.value), ByName())
  {
    if listed.None? {
      return None;
    }
    var units := listed.value;
    var out := [];
    for k := 0 to |units|
      invariant out == Visible(m, units[..k])
    {
      assert Front(units[..k + 1]) == units[..k] && Last(units[..k + 1]) == units[k];
      if m.readable(units[k].name) {
        out := out + [ToService(m, units[k])];
      }
    }
    assert units[..|units|] == units;
    out := SortServices(out);
    r := Some(out);
  }

  /** Every service is filed under its own name. */
  ghost predicate Keyed(state: map<string, Service>) {
    forall n :: n in state ==> state[n].name == n
  }

  /** The index as a sorted slice, walking the map in whatever order it yields its keys. */
  method Snapshot(state: map<string, Service>) returns (out: seq<Service>)
    requires Keyed(state)
    ensures Listing(out, state)
  {
    var todo := state.Keys;
    var rows: seq<Service> := [];
    while todo != {}
      invariant todo <= state.Keys
      invariant DistinctNames(rows)
      invariant forall x :: x in rows ==> x.name in state.Keys - todo && state[x.name] == x
      invariant forall n :: n in state.Keys - todo ==> state[n] in rows
      decreases todo
    {
      var n :| n in todo;
      rows := rows + [state[n]];
      todo := todo - {n};
    }
    out := SortServices(rows);
    SortingEnumerates(out, rows, state);
  }

  /** The index after listing: a later unit replaces an earlier one of the same name. */
  function Index(m: Manager, units: seq<Unit>): (state: map<string, Service>) {
    if units == [] then map[]
    else
      var u := Last(units);
      var state := Index(m, Front(units));
      if m.readable(u.name) then state[u.name := ToService(m, u)] else state
  }

  function Update(m: Manager, state: map<string, Service>, c: Change): map<string, Service> {
    if c.removed || !m.readable(c.unit.name) then state - {c.unit.name}
    else state[c.unit.name := ToService(m, c.unit)]
  }

  function UpdateAll(m: Manager, state: map<string, Service>, changes: seq<Change>): map<string, Service> {
    if changes == [] then state
    else Update(m, UpdateAll(m, state, Front(changes)), Last(changes))
  }

  lemma {:induction false} IndexKeyed(m: Manager, units: seq<Unit>)
    ensures Keyed(Index(m, units))
  {
    if units != [] { IndexKeyed(m, Front(units)); }
  }

  /** The index a producer starts from; a failed listing leaves it empty. */
  function Start(m: Manager, listed: Option<seq<Unit>>): map<string, Service> {
    if listed.Some? then Index(m, listed.value) else map[]
  }

  /** The first loop of the producer: file every readable unit under its name. */
  method BuildIndex(m: Manager, units: seq<Unit>) returns (state: map<string, Service>)
    ensures Keyed(state) && state == Index(m, units)
  {
    state := map[];
    for i := 0 to |units|
      invariant state == Index(m, units[..i])
    {
      assert Front(units[..i + 1]) == units[..i] && Last(units[..i + 1]) == units[i];
      if m.readable(units[i].name) {
        state := state[units[i].name := ToService(m, units[i])];
      }
    }
    assert units[..|units|] == units;
    IndexKeyed(m, units);
  }

  /**
   One producer's life: list once, emit, then emit again after each change delivered before
   its context was cancelled or the change stream closed.
   */
  method Producer(m: Manager, listed: Option<seq<Unit>>, subscribed: bool, changes: seq<Change>)
    returns (emitted: seq<seq<Service>>)
    ensures |emitted| == 1 + if subscribed then |changes| else 0
    ensures forall k :: 0 <= k < |emitted| ==>
              k <= |changes| && Listing(emitted[k], UpdateAll(m, Start(m, listed), changes[..k]))
  {
    hide Sorted, Enumerates;
    var state: map<string, Service> := map[];
    if listed.Some? {
      state := BuildIndex(m, listed.value);
    }
    ghost var start := state;
    var snap := Snapshot(state);
    emitted := [snap];
    assert changes[..0] == [];
    if !subscribed {
      return;
    }
    for k := 0 to |changes|
      invariant Keyed(state) && state == UpdateAll(m, start, changes[..k])
      invariant |emitted| == k + 1
      invariant forall i :: 0 <= i <= k ==> Listing(emitted[i], UpdateAll(m, start, changes[..i]))
    {
      assert Front(changes[..k + 1]) == changes[..k] && Last(changes[..k + 1]) == changes[k];
      var name := changes[k].unit.name;
      if changes[k].removed || !m.readable(name) {
        state := state - {name};
      } else {
        state := state[name := ToService(m, changes[k].unit)];
      }
      snap := Snapshot(state);
      emitted := emitted + [snap];
    }
  }

  // ---------------------------------------------------------------- agreement

  /** The unit table the same changes would leave behind. */
  function Table(units: seq<Unit>): map<string, Unit> {
    if units == [] then map[] else Table(Front(units))[Last(units).name := Last(units)]
  }

  function Change1(table: map<string, Unit>, c: Change): map<string, Unit> {
    if c.removed then table - {c.unit.name} else table[c.unit.name := c.unit]
  }

  function ChangeAll(table: map<string, Unit>, changes: seq<Change>): map<string, Unit> {
    if changes == [] then table else Change1(ChangeAll(table, Front(changes)), Last(changes))
  }

  /** Filtering and annotating a whole table at once. */
  function Project(m: Manager, table: map<string, Unit>): map<string, Service> {
    map n | n in table && m.readable(n) :: ToService(m, table[n])
  }

  ghost predicate UnitsKeyed(table: map<string, Unit>) {
    forall n :: n in table ==> table[n].name == n
  }

  lemma {:induction false} IndexIsProjection(m: Manager, units: seq<Unit>)
    ensures UnitsKeyed(Table(units)) && Index(m, units) == Project(m, Table(units))
  {
    if units != [] { IndexIsProjection(m, Front(units)); }
  }

  lemma OneUpdate(m: Manager, table: map<string, Unit>, c: Change)
    requires UnitsKeyed(table)
    ensures UnitsKeyed(Change1(table, c))
    ensures Update(m, Project(m, table), c) == Project(m, Change1(table, c))
  {
  }

  lemma {:induction false} UpdatesCommute(m: Manager, table: map<string, Unit>, changes: seq<Change>)
    requires UnitsKeyed(table)
    ensures UnitsKeyed(ChangeAll(table, changes))
    ensures UpdateAll(m, Project(m, table), changes) == Project(m, ChangeAll(table, changes))
  {
    hide Update, Change1, Project, UnitsKeyed;
    if changes != [] {
      UpdatesCommute(m, table, Front(changes));
      OneUpdate(m, ChangeAll(table, Front(changes)), Last(changes));
    }
  }

  /** `units` is what ListUnits could return for the table: each unit once, in any order. */
  ghost predicate ListsTable(units: seq<Unit>, table: map<string, Unit>) {
    && (forall i, j :: 0 <= i < j < |units| ==> units[i].name != units[j].name)
    && (forall u :: u in units <==> u.name in table && table[u.name] == u)
  }

  ghost predicate FromUnits(s: seq<Service>, m: Manager, units: seq<Unit>) {
    forall x :: x in s <==> exists u :: u in units && m.readable(u.name) && x == ToService(m, u)
  }

  lemma {:induction false} VisibleMembers(m: Manager, units: seq<Unit>)
    ensures FromUnits(Visible(m, units), m, units)
  {
    if units != [] {
      VisibleMembers(m, Front(units));
      assert units == Front(units) + [Last(units)];
      forall x
        ensures x in Visible(m, units) <==>
                  exists u :: u in units && m.readable(u.name) && x == ToService(m, u)
      {
        if x in Visible(m, Front(units)) {
          var u :| u in Front(units) && m.readable(u.name) && x == ToService(m, u);
          assert u in units;
        }
      }
    }
  }

  lemma {:induction false} VisibleDistinct(m: Manager, units: seq<Unit>)
    requires forall i, j :: 0 <= i < j < |units| ==> units[i].name != units[j].name
    ensures DistinctNames(Visible(m, units))
  {
    if units != [] {
      var rows := Visible(m, Front(units));
      VisibleDistinct(m, Front(units));
      VisibleMembers(m, Front(units));
      forall i | 0 <= i < |rows| ensures rows[i].name != Last(units).name {
        assert rows[i] in rows;
      }
    }
  }

  lemma VisibleEnumerates(m: Manager, units: seq<Unit>, table: map<string, Unit>)
    requires UnitsKeyed(table) && ListsTable(units, table)
    ensures Enumerates(Visible(m, units), Project(m, table))
  {
    VisibleDistinct(m, units);
    VisibleMembers(m, units);
    var state := Project(m, table);
    forall n | n in state ensures state[n].name == n && state[n] in Visible(m, units) {
      assert table[n] in units;
    }
  }

  /**
   Every snapshot equals the listing. For units with distinct names and any delivered
   changes, a snapshot taken after them is what List returns for the table those changes
   leave, in whatever order ListUnits reports it.
   */
  lemma SnapshotEqualsList(m: Manager, units: seq<Unit>, changes: seq<Change>, snapshot: seq<Service>,
                           now: seq<Unit>, listing: seq<Service>)
    requires Listing(snapshot, UpdateAll(m, Index(m, units), changes))
    requires ListsTable(now, ChangeAll(Table(units), changes))
    requires SortedPermutation(listing, Visible(m, now), ByName())
    ensures snapshot == listing
  {
    IndexIsProjection(m, units);
    UpdatesCommute(m, Table(units), changes);
    var table := ChangeAll(Table(units), changes);
    VisibleEnumerates(m, now, table);
    SortingEnumerates(listing, Visible(m, now), Project(m, table));
    ListingUnique(snapshot, listing, Project(m, table));
  }

  // ---------------------------------------------------------------- rows

  /** The row reports the unit, field by field, under its own write scope. */
  predicate RowOf(m: Manager, x: Service, u: Unit) {
    && x.name == u.name && x.description == u.description && x.loadState == u.loadState
    && x.activeState == u.activeState && x.subState == u.subState
    && x.writable == m.writable(u.name)
  }

  lemma ToServiceRow(m: Manager, u: Unit)
    ensures RowOf(m, ToService(m, u), u)
    ensures forall x :: RowOf(m, x, u) ==> x == ToService(m, u)
  {
  }

  /** A listing has a row for every readable unit reported, and no other rows. */
  lemma ListingRows(m: Manager, units: seq<Unit>, listing: seq<Service>)
    requires SortedPermutation(listing, Visible(m, units), ByName())
    ensures |listing| <= |units|
    ensures forall x :: x in listing <==> exists u :: u in units && m.readable(u.name) && RowOf(m, x, u)
  {
    MembersOfPermutation(listing, Visible(m, units));
    VisibleCount(m, units);
    VisibleMembers(m, units);
    forall x ensures x in listing <==> exists u :: u in units && m.readable(u.name) && RowOf(m, x, u) {
      forall u: Unit ensures RowOf(m, x, u) <==> x == ToService(m, u) { ToServiceRow(m, u); }
      if x in Visible(m, units) {
        var u :| u in units && m.readable(u.name) && x == ToService(m, u);
        assert RowOf(m, x, u);
      }
      if exists u :: u in units && m.readable(u.name) && RowOf(m, x, u) {
        var u :| u in units && m.readable(u.name) && RowOf(m, x, u);
        assert x == ToService(m, u);
      }
    }
  }

  lemma {:induction false} VisibleCount(m: Manager, units: seq<Unit>)
    ensures |Visible(m, units)| <= |units|
  {
    if units != [] { VisibleCount(m, Front(units)); }
  }

  /**
   After any delivered changes a snapshot has exactly one row for each readable unit of the
   table those changes leave, showing that unit field by field, in ascending order of names.
   */
  lemma SnapshotRows(m: Manager, units: seq<Unit>, changes: seq<Change>, snapshot: seq<Service>)
    requires Listing(snapshot, UpdateAll(m, Index(m, units), changes))
    ensures var table := ChangeAll(Table(units), changes);
            && (forall x :: x in snapshot ==>
                  x.name in table && m.readable(x.name) && RowOf(m, x, table[x.name]))
            && (forall n :: n in table && m.readable(n) ==>
                  exists i :: 0 <= i < |snapshot| && RowOf(m, snapshot[i], table[n]))
    ensures forall i, j :: 0 <= i < j < |snapshot| ==> Less(snapshot[i].name, snapshot[j].name)
  {
    IndexIsProjection(m, units);
    UpdatesCommute(m, Table(units), changes);
    StrictlySorted(snapshot);
    hide Less, UpdateAll, ChangeAll, Index, Table, Sorted;
    var table := ChangeAll(Table(units), changes);
    forall n | n in table && m.readable(n)
      ensures exists i :: 0 <= i < |snapshot| && RowOf(m, snapshot[i], table[n])
    {
      ToServiceRow(m, table[n]);
      assert Project(m, table)[n] in snapshot;
      var i :| 0 <= i < |snapshot| && snapshot[i] == Project(m, table)[n];
    }
    forall x | x in snapshot ensures x.name in table && m.readable(x.name) && RowOf(m, x, table[x.name]) {
      ToServiceRow(m, table[x.name]);
    }
  }

  lemma StrictlySorted(s: seq<Service>)
    requires Sorted(s) && DistinctNames(s)
    ensures forall i, j :: 0 <= i < j < |s| ==> Less(s[i].name, s[j].name)
  {
    forall i, j | 0 <= i < j < |s| ensures Less(s[i].name, s[j].name) {
      LessTotal(s[i].name, s[j].name);
    }
  }

  // ---------------------------------------------------------------- scopes

  ghost predicate InScope(m: Manager, state: map<string, Service>) {
    forall n :: n in state ==> m.readable(n) && state[n].name == n && state[n].writable == m.writable(n)
  }

  lemma {:induction false} IndexInScope(m: Manager, units: seq<Unit>)
    ensures InScope(m, Index(m, units))
  {
    if units != [] { IndexInScope(m, Front(units)); }
  }

  lemma {:induction false} UpdatesInScope(m: Manager, state: map<string, Service>, changes: seq<Change>)
    requires InScope(m, state)
    ensures InScope(m, UpdateAll(m, state, changes))
  {
    if changes != [] { UpdatesInScope(m, state, Front(changes)); }
  }

  /**
   Only readable units are ever emitted, each under its own write scope, whatever was listed,
   duplicates and a failed listing included, and whatever changes arrive.
   */
  lemma OnlyReadableEmitted(m: Manager, listed: Option<seq<Unit>>, changes: seq<Change>, snapshot: seq<Service>)
    requires Listing(snapshot, UpdateAll(m, Start(m, listed), changes))
    ensures forall x :: x in snapshot ==> m.readable(x.name) && x.writable == m.writable(x.name)
  {
    if listed.Some? { IndexInScope(m, listed.value); }
    UpdatesInScope(m, Start(m, listed), changes);
  }

  lemma {:induction false} IndexMembers(m: Manager, units: seq<Unit>)
    requires DistinctNames(Visible(m, units))
    ensures Enumerates(Visible(m, units), Index(m, units))
  {
    if units != [] {
      var rows := Visible(m, Front(units));
      assert DistinctNames(rows) by {
        assert rows == Visible(m, units)[..|rows|];
      }
      IndexMembers(m, Front(units));
      IndexStep(m, Front(units), Last(units));
      assert units == Front(units) + [Last(units)];
    }
  }

  lemma IndexStep(m: Manager, units: seq<Unit>, u: Unit)
    requires Enumerates(Visible(m, units), Index(m, units))
    requires DistinctNames(Visible(m, units + [u]))
    ensures Enumerates(Visible(m, units + [u]), Index(m, units + [u]))
  {
    assert Front(units + [u]) == units && Last(units + [u]) == u;
    var rows := Visible(m, units);
    if m.readable(u.name) {
      var all := rows + [ToService(m, u)];
      assert Visible(m, units + [u]) == all;
      assert all[|rows|].name == u.name;
      forall i | 0 <= i < |rows| ensures rows[i].name != u.name {
        assert all[i] == rows[i];
      }
    }
  }

  /**
   The first snapshot equals the listing of the same reply exactly when no two readable
   units share a name: with a duplicate, List reports both and the index keeps one.
   */
  lemma FirstSnapshotIffDistinct(m: Manager, units: seq<Unit>, snapshot: seq<Service>, listing: seq<Service>)
    requires Listing(snapshot, Index(m, units))
    requires SortedPermutation(listing, Visible(m, units), ByName())
    ensures snapshot == listing <==> DistinctNames(Visible(m, units))
  {
    if snapshot == listing {
      DistinctUnderPermutation(listing, Visible(m, units));
    }
    if DistinctNames(Visible(m, units)) {
      IndexMembers(m, units);
      SortingEnumerates(listing, Visible(m, units), Index(m, units));
      ListingUnique(snapshot, listing, Index(m, units));
    }
  }

  lemma VisibleAppend(m: Manager, units: seq<Unit>, u: Unit)
    requires m.readable(u.name)
    ensures Visible(m, units + [u]) == Visible(m, units) + [ToService(m, u)]
  {
    assert Front(units + [u]) == units;
  }

  /** A reply that lists one unit twice: the listing and the first snapshot differ. */
  lemma DuplicateUnitsDiffer(snapshot: seq<Service>, listing: seq<Service>)
    requires var m, u := Manager(_ => true, _ => false), Unit("cron.service", "", "loaded", "active", "running");
             && Listing(snapshot, Index(m, [u] + [u]))
             && SortedPermutation(listing, Visible(m, [u] + [u]), ByName())
    ensures snapshot != listing
  {
    hide Listing, SortedPermutation, Index;
    var m, u := Manager(_ => true, _ => false), Unit("cron.service", "", "loaded", "active", "running");
    VisibleAppend(m, [u], u);
    VisibleAppend(m, [], u);
    assert [] + [u] == [u];
    var rows := Visible(m, [u] + [u]);
    assert |rows| == 2 && rows[0].name == rows[1].name;
    FirstSnapshotIffDistinct(m, [u] + [u], snapshot, listing);
  }
}
