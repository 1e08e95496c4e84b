/** The rule manager: a table of rules that are waiting, active or expired, and the timer for the next
    one to install. Activating a rule reserves its resources one by one; removing it gives them back. */
module RuleManagers {
  import opened Basics
  import opened Graphs
  import opened PathResources
  import opened TopologyManagers

  datatype State = Active | Inactive | Expired

  /** A row of the rule table, with the rule's own fields. Times are points on one clock. */
  datatype Record = Record(hash: int, state: State, start: Option<int>, stop: Option<int>, resources: seq<Resource>)

  type Table = seq<Record>

  datatype Added = Installed(hash: int) | Failed
  datatype Removed = Gone | Unknown | Unauthorized | Stuck

  // ----- What the active rules hold -----

  function ActiveResources(table: Table): seq<Resource> {
    if table == [] then [] else
      ActiveResources(table[..|table| - 1]) +
      if table[|table| - 1].state == Active then table[|table| - 1].resources else []
  }

  predicate UniqueHashes(table: Table) {
    forall i, j :: 0 <= i < j < |table| ==> table[i].hash != table[j].hash
  }

  function RowOf(table: Table, hash: int): Option<Record> {
    if table == [] then None
    else if table[0].hash == hash then Some(table[0])
    else RowOf(table[1..], hash)
  }

  function WithState(table: Table, hash: int, state: State): Table {
    seq(|table|, i requires 0 <= i < |table| => if table[i].hash == hash then table[i].(state := state) else table[i])
  }

  function Without(table: Table, hash: int): Table {
    if table == [] then []
    else if table[0].hash == hash then Without(table[1..], hash)
    else [table[0]] + Without(table[1..], hash)
  }

  // ----- The install timer -----

  function StartOf(r: Record): int {
    if r.start.Some? then r.start.value else 0
  }

  /** Rows in order of start time, as the table query returns them. */
  function InsertByStart(r: Record, rows: Table): Table {
    if rows == [] || StartOf(r) <= StartOf(rows[0]) then [r] + rows else [rows[0]] + InsertByStart(r, rows[1..])
  }

  function InactiveByStart(table: Table): Table {
    if table == [] then []
    else if table[0].state == Inactive then InsertByStart(table[0], InactiveByStart(table[1..]))
    else InactiveByStart(table[1..])
  }

  predicate SortedByStart(rows: Table) {
    forall i, j :: 0 <= i < j < |rows| ==> StartOf(rows[i]) <= StartOf(rows[j])
  }

  lemma {:induction false} InsertKeeps(r: Record, rows: Table)
    ensures forall x :: x in InsertByStart(r, rows) <==> x == r || x in rows
    ensures SortedByStart(rows) ==> SortedByStart(InsertByStart(r, rows))
    ensures |InsertByStart(r, rows)| == |rows| + 1
  {
    if rows != [] && StartOf(r) > StartOf(rows[0]) {
      InsertKeeps(r, rows[1..]);
      assert rows == [rows[0]] + rows[1..];
      if SortedByStart(rows) {
        var t := InsertByStart(r, rows[1..]);
        forall j | 0 <= j < |t| ensures StartOf(rows[0]) <= StartOf(t[j]) {
          assert t[j] in t;
        }
      }
    }
  }

  lemma {:induction false} QueryKeeps(table: Table)
    ensures forall x :: x in InactiveByStart(table) <==> x in table && x.state == Inactive
    ensures SortedByStart(InactiveByStart(table))
  {
    if table != [] {
      QueryKeeps(table[1..]);
      assert table == [table[0]] + table[1..];
      if table[0].state == Inactive { InsertKeeps(table[0], InactiveByStart(table[1..])); }
    }
  }

  /** The next install time is the least start time of a waiting rule, if any waits. */
  ghost predicate Scheduled(table: Table, next: Option<int>) {
    match next
    case None => forall r :: r in table ==> r.state != Inactive
    case Some(t) =>
      && (exists r :: r in table && r.state == Inactive && r.start == Some(t))
      && forall r :: r in table && r.state == Inactive ==> t <= StartOf(r)
  }

  predicate StartsKnown(table: Table) {
    forall r :: r in table && r.state == Inactive ==> r.start.Some?
  }

  // ----- The books -----

  /** Everything the resource names exists. */
  predicate Placed(w: Wiring, nodes: Nodes, edges: Links, r: Resource) {
    Known(w, r) && (forall n :: n in NodesOf(r) ==> n in nodes) && forall h :: h in PairsOf(w, r) ==> HasLink(edges, h)
  }

  /** Every meter shows what the active rules hold, plus what failed installations left behind, minus
      what is missing because an active rule was only partly installed or partly removed. */
  ghost predicate Balanced(w: Wiring, nodes: Nodes, edges: Links, table: Table, leaked: seq<Resource>,
                           owed: seq<Resource>) {
    forall m {:trigger Read(nodes, edges, m)} ::
      Read(nodes, edges, m) + Sum(w, owed, m) == Sum(w, ActiveResources(table), m) + Sum(w, leaked, m)
  }

  ghost predicate RowOk(w: Wiring, r: Record, lastHash: int) {
    && r.hash <= lastHash
    && (r.state == Inactive ==> r.start.Some?)
    && forall x :: x in r.resources ==> WellFormed(w, x)
  }

  /** Everything the list names exists, save for what is owed. */
  ghost predicate PlacedBut(w: Wiring, nodes: Nodes, edges: Links, rs: seq<Resource>, owed: seq<Resource>) {
    forall x :: x in rs ==> x in owed || Placed(w, nodes, edges, x)
  }

  ghost predicate BooksOk(w: Wiring, nodes: Nodes, edges: Links, table: Table, lastHash: int,
                          leaked: seq<Resource>, owed: seq<Resource>) {
    && UniqueHashes(table)
    && (forall r :: r in table ==> RowOk(w, r, lastHash))
    && Tidy(nodes, edges)
    && PlacedBut(w, nodes, edges, ActiveResources(table), owed)
    && (forall x :: x in leaked ==> WellFormed(w, x))
    && Balanced(w, nodes, edges, table, leaked, owed)
  }

  lemma BooksKnowStarts(w: Wiring, nodes: Nodes, edges: Links, table: Table, last: int, leaked: seq<Resource>,
                        owed: seq<Resource>)
    requires BooksOk(w, nodes, edges, table, last, leaked, owed)
    ensures StartsKnown(table)
  {
    forall r | r in table && r.state == Inactive ensures r.start.Some? {
      assert RowOk(w, r, last);
    }
  }

  lemma {:induction false} ActiveIn(table: Table, x: Resource)
    requires x in ActiveResources(table)
    ensures exists r :: r in table && r.state == Active && x in r.resources
    decreases |table|
  {
    var last := table[|table| - 1];
    if last.state == Active && x in last.resources {
      assert last in table;
    } else {
      ActiveIn(table[..|table| - 1], x);
      var r :| r in table[..|table| - 1] && r.state == Active && x in r.resources;
      assert r in table;
    }
  }

  lemma {:induction false} ActiveHas(table: Table, i: nat, x: Resource)
    requires i < |table| && table[i].state == Active && x in table[i].resources
    ensures x in ActiveResources(table)
    decreases |table|
  {
    if i < |table| - 1 { ActiveHas(table[..|table| - 1], i, x); }
  }

  lemma ActiveAppend(table: Table, r: Record)
    ensures ActiveResources(table + [r]) == ActiveResources(table) + if r.state == Active then r.resources else []
  {
    assert (table + [r])[..|table|] == table;
  }

  lemma WithStateOne(table: Table, i: nat, state: State)
    requires UniqueHashes(table) && i < |table|
    ensures WithState(table, table[i].hash, state) == table[..i] + [table[i].(state := state)] + table[i + 1..]
  {
    forall k | 0 <= k < |table| && k != i ensures table[k].hash != table[i].hash {
      if k < i { assert table[k].hash != table[i].hash; }
    }
  }

  /** The sum over a table, around one row. */
  lemma SumAround(w: Wiring, a: Table, row: Record, b: Table, m: Meter)
    ensures Sum(w, ActiveResources(a + [row] + b), m)
         == Sum(w, ActiveResources(a + b), m) + if row.state == Active then Sum(w, row.resources, m) else 0
  {
    var own := if row.state == Active then row.resources else [];
    ActiveConcat(a + [row], b);
    ActiveAppend(a, row);
    ActiveConcat(a, b);
    SumAppend(w, ActiveResources(a) + own, ActiveResources(b), m);
    SumAppend(w, ActiveResources(a), own, m);
    SumAppend(w, ActiveResources(a), ActiveResources(b), m);
  }

  /** Activating the one row with a hash adds exactly its resources. */
  lemma ActivateSum(w: Wiring, table: Table, i: nat, m: Meter)
    requires UniqueHashes(table) && i < |table| && table[i].state != Active
    ensures Sum(w, ActiveResources(WithState(table, table[i].hash, Active)), m)
         == Sum(w, ActiveResources(table), m) + Sum(w, table[i].resources, m)
  {
    WithStateOne(table, i, Active);
    assert table == table[..i] + [table[i]] + table[i + 1..];
    SumAround(w, table[..i], table[i], table[i + 1..], m);
    SumAround(w, table[..i], table[i].(state := Active), table[i + 1..], m);
  }

  /** Deleting a row takes exactly its resources out of the sum, if it was active. */
  lemma DeleteSum(w: Wiring, table: Table, i: nat, m: Meter)
    requires UniqueHashes(table) && i < |table|
    ensures Sum(w, ActiveResources(table[..i] + table[i + 1..]), m)
         == Sum(w, ActiveResources(table), m) - if table[i].state == Active then Sum(w, table[i].resources, m) else 0
  {
    assert table == table[..i] + [table[i]] + table[i + 1..];
    SumAround(w, table[..i], table[i], table[i + 1..], m);
  }

  lemma {:induction false} WithoutNone(table: Table, h: int)
    requires forall r :: r in table ==> r.hash != h
    ensures Without(table, h) == table
  {
    if table != [] {
      assert table[0] in table;
      assert table == [table[0]] + table[1..];
      WithoutNone(table[1..], h);
    }
  }

  lemma {:induction false} WithoutOne(table: Table, i: nat)
    requires UniqueHashes(table) && i < |table|
    ensures Without(table, table[i].hash) == table[..i] + table[i + 1..]
    decreases |table|
  {
    if i == 0 {
      forall r | r in table[1..] ensures r.hash != table[0].hash {
        var k :| 0 <= k < |table[1..]| && table[1..][k] == r;
        assert table[0].hash != table[k + 1].hash;
      }
      WithoutNone(table[1..], table[0].hash);
    } else {
      assert table[0].hash != table[i].hash;
      var rest := table[1..];
      WithoutOne(rest, i - 1);
      assert rest[i - 1] == table[i] && rest[i..] == table[i + 1..];
      HeadOfConcat(table[..i], table[i + 1..]);
      assert table[..i][1..] == rest[..i - 1];
    }
  }

  lemma {:induction false} ActiveConcat(a: Table, b: Table)
    ensures ActiveResources(a + b) == ActiveResources(a) + ActiveResources(b)
    decreases |b|
  {
    if b == [] {
      assert a + b == a;
    } else {
      ActiveConcat(a, b[..|b| - 1]);
      FrontOfConcat(a, b);
      var own := if b[|b| - 1].state == Active then b[|b| - 1].resources else [];
      Regroup(ActiveResources(a), ActiveResources(b[..|b| - 1]), own);
    }
  }

  lemma {:induction false} RowOfFinds(table: Table, h: int)
    ensures RowOf(table, h) == None <==> forall r :: r in table ==> r.hash != h
    ensures RowOf(table, h).Some? ==>
            exists i :: 0 <= i < |table| && table[i] == RowOf(table, h).value && table[i].hash == h
  {
    if table != [] {
      RowOfFinds(table[1..], h);
      assert table == [table[0]] + table[1..];
      if table[0].hash != h && RowOf(table[1..], h).Some? {
        var i :| 0 <= i < |table[1..]| && table[1..][i] == RowOf(table[1..], h).value && table[1..][i].hash == h;
        assert table[i + 1] == RowOf(table, h).value;
      }
    }
  }

  /** Rows with one of the given hashes, made active. */
  function Activated(table: Table, hashes: set<int>): Table {
    seq(|table|, i requires 0 <= i < |table| => if table[i].hash in hashes then table[i].(state := Active)
      else table[i])
  }

  predicate Due(r: Record, now: int) {
    r.state == Inactive && StartOf(r) <= now
  }

  /** What the install timer should do: every waiting rule whose time has come becomes active. */
  function Promoted(table: Table, now: int): Table {
    seq(|table|, i requires 0 <= i < |table| => if Due(table[i], now) then table[i].(state := Active) else table[i])
  }

  function HashesOf(rows: Table): set<int> {
    set r | r in rows :: r.hash
  }

  lemma SameHashSameRow(table: Table, r: Record, x: Record)
    requires UniqueHashes(table) && r in table && x in table && r.hash == x.hash
    ensures r == x
  {
    var i :| 0 <= i < |table| && table[i] == r;
    var j :| 0 <= j < |table| && table[j] == x;
    assert i == j;
  }

  /** The rows before the first late one are exactly the due rows. */
  ghost predicate CutAt(rows: Table, k: nat, now: int) {
    && k <= |rows|
    && (forall j :: 0 <= j < k ==> StartOf(rows[j]) <= now)
    && (forall j :: k <= j < |rows| ==> now < StartOf(rows[j]))
  }

  lemma CutSorted(rows: Table, k: nat, now: int)
    requires SortedByStart(rows) && k <= |rows| && (forall j :: 0 <= j < k ==> StartOf(rows[j]) <= now)
    requires k < |rows| ==> now < StartOf(rows[k])
    ensures CutAt(rows, k, now)
  {
    forall j | k <= j < |rows| ensures now < StartOf(rows[j]) {
      if k < j { assert StartOf(rows[k]) <= StartOf(rows[j]); }
    }
  }

  lemma DueTaken(table: Table, rows: Table, k: nat, now: int, r: Record)
    requires UniqueHashes(table) && CutAt(rows, k, now) && r in table
    requires forall x :: x in rows <==> x in table && x.state == Inactive
    ensures r.hash in HashesOf(rows[..k]) <==> Due(r, now)
  {
    if r.hash in HashesOf(rows[..k]) {
      var x :| x in rows[..k] && x.hash == r.hash;
      assert x in rows;
      SameHashSameRow(table, r, x);
    }
    if Due(r, now) {
      assert r in rows;
      var j :| 0 <= j < |rows| && rows[j] == r;
      assert rows[..k][j] == r;
    }
  }

  /** The first k rows of the query are exactly the due rows, so activating them is promoting. */
  lemma PromotedAll(table: Table, k: nat, now: int)
    requires UniqueHashes(table) && CutAt(InactiveByStart(table), k, now)
    ensures Activated(table, HashesOf(InactiveByStart(table)[..k])) == Promoted(table, now)
  {
    QueryKeeps(table);
    forall i | 0 <= i < |table| ensures table[i].hash in HashesOf(InactiveByStart(table)[..k]) <==> Due(table[i], now) {
      DueTaken(table, InactiveByStart(table), k, now, table[i]);
    }
  }

  function ResourcesOf(rows: Table): seq<Resource> {
    if rows == [] then [] else ResourcesOf(rows[..|rows| - 1]) + rows[|rows| - 1].resources
  }

  /** How many of the waiting rows, in order of start time, are due. */
  function DueCount(rows: Table, now: int): (k: nat)
    ensures k <= |rows|
  {
    if rows == [] || now < StartOf(rows[0]) then 0 else 1 + DueCount(rows[1..], now)
  }

  /** Everything the due rows need, in the order in which the callback asks for it. */
  function DueResources(table: Table, now: int): seq<Resource> {
    var rows := InactiveByStart(table);
    ResourcesOf(rows[..DueCount(rows, now)])
  }

  lemma {:induction false} ResourcesFront(x: Record, rest: Table)
    ensures ResourcesOf([x] + rest) == x.resources + ResourcesOf(rest)
    decreases |rest|
  {
    var all := [x] + rest;
    if rest == [] {
      assert all[..0] == [] && [] + x.resources == x.resources + [];
    } else {
      var front, last := rest[..|rest| - 1], rest[|rest| - 1];
      assert all[..|all| - 1] == [x] + front && all[|all| - 1] == last;
      ResourcesFront(x, front);
      Regroup(x.resources, ResourcesOf(front), last.resources);
    }
  }

  /** What the rules whose time has come take from a meter, rule by rule as the table lists them. */
  function DueSum(w: Wiring, table: Table, now: int, m: Meter): int {
    if table == [] then 0 else
      (if table[0].state == Inactive && table[0].start.Some? && table[0].start.value <= now
       then Sum(w, table[0].resources, m) else 0) + DueSum(w, table[1..], now, m)
  }

  function FrontSum(w: Wiring, rows: Table, now: int, m: Meter): int {
    Sum(w, ResourcesOf(rows[..DueCount(rows, now)]), m)
  }

  lemma FrontSumMore(w: Wiring, x: Record, rest: Table, now: int, m: Meter)
    ensures FrontSum(w, [x] + rest, now, m)
         == if now < StartOf(x) then 0 else Sum(w, x.resources, m) + FrontSum(w, rest, now, m)
  {
    var all := [x] + rest;
    assert all[1..] == rest;
    if StartOf(x) <= now {
      var k := DueCount(rest, now);
      assert DueCount(all, now) == k + 1 && all[..k + 1] == [x] + rest[..k];
      ResourcesFront(x, rest[..k]);
      SumAppend(w, x.resources, ResourcesOf(rest[..k]), m);
    }
  }

  /** Wherever a row is put in by its start time, it adds what it takes if it is due. */
  lemma {:induction false} InsertSum(w: Wiring, r: Record, rows: Table, now: int, m: Meter)
    requires SortedByStart(rows)
    ensures FrontSum(w, InsertByStart(r, rows), now, m)
         == FrontSum(w, rows, now, m) + if StartOf(r) <= now then Sum(w, r.resources, m) else 0
  {
    if rows == [] || StartOf(r) <= StartOf(rows[0]) {
      FrontSumMore(w, r, rows, now, m);
      assert rows == [] || now < StartOf(r) ==> rows[..DueCount(rows, now)] == [];
    } else {
      var rest := rows[1..];
      assert rows == [rows[0]] + rest;
      FrontSumMore(w, rows[0], rest, now, m);
      FrontSumMore(w, rows[0], InsertByStart(r, rest), now, m);
      InsertSum(w, r, rest, now, m);
    }
  }

  /** So the order in which the callback goes through the waiting rules does not matter for what they need in all. */
  lemma {:induction false} DueTotal(w: Wiring, table: Table, now: int, m: Meter)
    requires StartsKnown(table)
    ensures Sum(w, DueResources(table, now), m) == DueSum(w, table, now, m)
  {
    if table != [] {
      var rest := table[1..];
      assert forall r :: r in rest ==> r in table;
      DueTotal(w, rest, now, m);
      assert table[0] in table;
      if table[0].state == Inactive {
        QueryKeeps(rest);
        InsertSum(w, table[0], InactiveByStart(rest), now, m);
      }
    }
  }

  /** Every waiting rule whose time has come is active, and nothing else has changed. */
  predicate CaughtUp(table0: Table, table: Table, now: int) {
    |table| == |table0| && forall i :: 0 <= i < |table| ==>
      && table[i].hash == table0[i].hash && table[i].start == table0[i].start && table[i].stop == table0[i].stop
      && table[i].resources == table0[i].resources
      && (table[i].state == Inactive <==>
            table0[i].state == Inactive && (table0[i].start.Some? ==> now < table0[i].start.value))
      && (table[i].state == Expired <==> table0[i].state == Expired)
  }

  lemma PromotedCaughtUp(table: Table, now: int)
    requires StartsKnown(table)
    ensures CaughtUp(table, Promoted(table, now), now)
  {
    forall i | 0 <= i < |table| && table[i].state == Inactive ensures table[i].start.Some? { assert table[i] in table; }
  }

  lemma {:induction false} DueCountIs(rows: Table, k: nat, now: int)
    requires k <= |rows| && forall j :: 0 <= j < k ==> StartOf(rows[j]) <= now
    ensures k <= DueCount(rows, now)
    ensures k < |rows| && now < StartOf(rows[k]) ==> k == DueCount(rows, now)
  {
    if k > 0 { DueCountIs(rows[1..], k - 1, now); }
  }

  lemma ResourcesStep(rows: Table, i: nat)
    requires i < |rows|
    ensures ResourcesOf(rows[..i + 1]) == ResourcesOf(rows[..i]) + rows[i].resources
  {
    assert rows[..i + 1][..i] == rows[..i];
  }

  lemma {:induction false} ResourcesSplit(rows: Table, i: nat) returns (rest: seq<Resource>)
    requires i <= |rows|
    ensures ResourcesOf(rows) == ResourcesOf(rows[..i]) + rest
    ensures forall x :: x in rest ==> exists r :: r in rows && x in r.resources
    decreases |rows|
  {
    if i == |rows| {
      assert rows[..i] == rows;
      rest := [];
    } else {
      var front, last := rows[..|rows| - 1], rows[|rows| - 1];
      rest := ResourcesSplit(front, i);
      assert front[..i] == rows[..i] && last in rows;
      rest := rest + last.resources;
    }
  }

  /** Removing something that is fully accounted for cannot fail. */
  lemma AccountedHeld(w: Wiring, nodes: Nodes, edges: Links, r: Resource)
    requires WellFormed(w, r) && Placed(w, nodes, edges, r)
    requires forall m :: Take(w, r, m) <= Read(nodes, edges, m)
    ensures Held(w, nodes, edges, r)
  {
    if r.IsVlan() {
      forall m: Meter | !m.Bw? ensures VlanTake(NodesOf(r), PairsOf(w, r), r.Value(), m) <= Read(nodes, edges, m) {
        assert Take(w, r, m) <= Read(nodes, edges, m);
      }
    } else {
      forall h | h in PairsOf(w, r) ensures HoldsBw(edges, h, r.Value()) {
        var e := Pair(h.0, h.1);
        assert Take(w, r, Bw(e)) <= Read(nodes, edges, Bw(e));
        TimesDistinct(PairsOf(w, r), r.Value(), e);
        assert Crosses(h, e);
      }
    }
  }

  /** Everything the list takes is on the meters. */
  ghost predicate Accounted(w: Wiring, nodes: Nodes, edges: Links, rs: seq<Resource>) {
    (forall r :: r in rs ==> Placed(w, nodes, edges, r)) && forall m :: Sum(w, rs, m) <= Read(nodes, edges, m)
  }

  /** The row is active, and not all it holds is on the meters. */
  ghost predicate Owing(w: Wiring, nodes: Nodes, edges: Links, row: Record) {
    row.state == Active && !Accounted(w, nodes, edges, row.resources)
  }

  lemma SumStep(w: Wiring, rs: seq<Resource>, i: nat, m: Meter)
    requires i < |rs|
    ensures Sum(w, rs[..i + 1], m) == Sum(w, rs[..i], m) + Take(w, rs[i], m)
  {
    assert rs[..i + 1][..i] == rs[..i];
  }

  lemma SumSplit(w: Wiring, rs: seq<Resource>, i: nat, m: Meter)
    requires i <= |rs| && forall r :: r in rs ==> WellFormed(w, r)
    ensures Sum(w, rs[..i], m) <= Sum(w, rs, m)
  {
    assert rs == rs[..i] + rs[i..];
    SumAppend(w, rs[..i], rs[i..], m);
    SumSign(w, rs[i..], m);
  }

  lemma FitsPlaced(w: Wiring, nodes: Nodes, edges: Links, r: Resource)
    requires Fits(w, nodes, edges, r)
    ensures Placed(w, nodes, edges, r)
  {
    forall n | n in NodesOf(r) ensures n in nodes {
      assert r.IsVlan();
      assert FreeOnNode(nodes, n, r.Value());
    }
    forall h | h in PairsOf(w, r) ensures HasLink(edges, h) {}
  }

  /** The list can be reserved from here as a whole: everything it names exists, and no edge and no VLAN would be
      overdrawn by what the list takes in all. */
  ghost predicate RoomForAll(w: Wiring, nodes: Nodes, edges: Links, rs: seq<Resource>) {
    && (forall r :: r in rs ==> Placed(w, nodes, edges, r))
    && forall m: Meter {:trigger Read(nodes, edges, m)} ::
         (m.Bw? ==> m.e in edges) ==> Read(nodes, edges, m) + Sum(w, rs, m) <= Capacity(edges, m)
  }

  /** One well-formed resource fits exactly if it overdraws nothing. */
  lemma FitsIff(w: Wiring, nodes: Nodes, edges: Links, r: Resource)
    requires Tidy(nodes, edges) && WellFormed(w, r)
    ensures Fits(w, nodes, edges, r) <==> RoomForAll(w, nodes, edges, [r])
  {
    if Fits(w, nodes, edges, r) {
      FitsPlaced(w, nodes, edges, r);
      forall m: Meter | m.Bw? ==> m.e in edges
        ensures Read(nodes, edges, m) + Sum(w, [r], m) <= Capacity(edges, m)
      {
        SumOne(w, r, m);
        FitsWithin(w, nodes, edges, r, m);
      }
    }
    if RoomForAll(w, nodes, edges, [r]) {
      assert r in [r];
      forall m: Meter | m.Bw? ==> m.e in edges ensures Read(nodes, edges, m) + Take(w, r, m) <= Capacity(edges, m) {
        SumOne(w, r, m);
      }
      WithinFits(w, nodes, edges, r);
    }
  }

  lemma FitsWithin(w: Wiring, nodes: Nodes, edges: Links, r: Resource, m: Meter)
    requires Tidy(nodes, edges) && WellFormed(w, r) && Fits(w, nodes, edges, r) && (m.Bw? ==> m.e in edges)
    ensures Read(nodes, edges, m) + Take(w, r, m) <= Capacity(edges, m)
  {
    assert Read(nodes, edges, m) <= Capacity(edges, m);
    match m
    case Bw(e) => TimesDistinct(PairsOf(w, r), r.Value(), e);
    case EdgeVlan(e, v) => TimesDistinct(PairsOf(w, r), 1, e);
    case NodeVlan(n, v) => OccursDistinct(NodesOf(r), n);
  }

  lemma WithinFits(w: Wiring, nodes: Nodes, edges: Links, r: Resource)
    requires WellFormed(w, r) && Placed(w, nodes, edges, r)
    requires forall m: Meter {:trigger Read(nodes, edges, m)} ::
               (m.Bw? ==> m.e in edges) ==> Read(nodes, edges, m) + Take(w, r, m) <= Capacity(edges, m)
    ensures Fits(w, nodes, edges, r)
  {
    var v := r.Value();
    if r.IsVlan() {
      forall n | n in NodesOf(r) ensures FreeOnNode(nodes, n, v) {
        OccursDistinct(NodesOf(r), n);
        assert Read(nodes, edges, NodeVlan(n, v)) + Take(w, r, NodeVlan(n, v)) <= 1;
      }
    }
    forall h | h in PairsOf(w, r)
      ensures if r.IsVlan() then FreeOnLink(edges, h, v) else RoomForBw(edges, h, v)
    {
      var e := Pair(h.0, h.1);
      assert HasLink(edges, h) && Crosses(h, e);
      if r.IsVlan() {
        TimesDistinct(PairsOf(w, r), 1, e);
        assert Read(nodes, edges, EdgeVlan(e, v)) + Take(w, r, EdgeVlan(e, v)) <= 1;
      } else {
        TimesDistinct(PairsOf(w, r), v, e);
        assert Read(nodes, edges, Bw(e)) + Take(w, r, Bw(e)) <= Capacity(edges, Bw(e));
      }
    }
  }

  /** There is room for two lists exactly if there is room for the first and, once that is taken, for the second. */
  lemma RoomAfter(w: Wiring, nodes0: Nodes, edges0: Links, nodes: Nodes, edges: Links, a: seq<Resource>,
                  b: seq<Resource>)
    requires Moved(nodes0, edges0, nodes, edges, SumOf(w, a)) && RoomForAll(w, nodes0, edges0, a)
    ensures RoomForAll(w, nodes0, edges0, a + b) <==> RoomForAll(w, nodes, edges, b)
  {
    if RoomForAll(w, nodes0, edges0, a + b) {
      forall r | r in b ensures Placed(w, nodes, edges, r) {
        assert r in a + b;
        PlacedStays(w, nodes0, edges0, nodes, edges, r);
      }
      forall m: Meter | m.Bw? ==> m.e in edges ensures Read(nodes, edges, m) + Sum(w, b, m) <= Capacity(edges, m) {
        SumAppend(w, a, b, m);
        assert Read(nodes0, edges0, m) + Sum(w, a + b, m) <= Capacity(edges0, m);
      }
    }
    if RoomForAll(w, nodes, edges, b) {
      forall r | r in a + b ensures Placed(w, nodes0, edges0, r) {
        if r in b { PlacedStays(w, nodes, edges, nodes0, edges0, r); }
      }
      forall m: Meter | m.Bw? ==> m.e in edges0
        ensures Read(nodes0, edges0, m) + Sum(w, a + b, m) <= Capacity(edges0, m)
      {
        SumAppend(w, a, b, m);
        assert Read(nodes, edges, m) + Sum(w, b, m) <= Capacity(edges, m);
      }
    }
  }

  /** Room for a list is room for its first part. */
  lemma RoomForFewer(w: Wiring, nodes: Nodes, edges: Links, a: seq<Resource>, b: seq<Resource>)
    requires RoomForAll(w, nodes, edges, a + b) && forall r :: r in b ==> WellFormed(w, r)
    ensures RoomForAll(w, nodes, edges, a)
  {
    forall r | r in a ensures Placed(w, nodes, edges, r) { assert r in a + b; }
    forall m: Meter | m.Bw? ==> m.e in edges ensures Read(nodes, edges, m) + Sum(w, a, m) <= Capacity(edges, m) {
      SumAppend(w, a, b, m);
      SumSign(w, b, m);
    }
  }

  /** The first k resources are the most that can be reserved in order. */
  ghost predicate LongestFit(w: Wiring, nodes: Nodes, edges: Links, rs: seq<Resource>, k: nat) {
    && k <= |rs| && RoomForAll(w, nodes, edges, rs[..k])
    && (k < |rs| ==> !RoomForAll(w, nodes, edges, rs[..k + 1]))
  }

  lemma LongestMost(w: Wiring, nodes: Nodes, edges: Links, rs: seq<Resource>, j: nat, k: nat)
    requires LongestFit(w, nodes, edges, rs, j) && k <= |rs| && RoomForAll(w, nodes, edges, rs[..k])
    requires forall r :: r in rs ==> WellFormed(w, r)
    ensures k <= j
  {
    if j < k {
      assert rs[..k] == rs[..j + 1] + rs[j + 1..k];
      RoomForFewer(w, nodes, edges, rs[..j + 1], rs[j + 1..k]);
    }
  }

  /** All of the list fits exactly if nothing is left over. */
  lemma LongestAll(w: Wiring, nodes: Nodes, edges: Links, rs: seq<Resource>, k: nat)
    requires LongestFit(w, nodes, edges, rs, k) && forall r :: r in rs ==> WellFormed(w, r)
    ensures k == |rs| <==> RoomForAll(w, nodes, edges, rs)
  {
    assert rs[..|rs|] == rs;
    if k < |rs| && RoomForAll(w, nodes, edges, rs) {
      assert rs == rs[..k + 1] + rs[k + 1..];
      RoomForFewer(w, nodes, edges, rs[..k + 1], rs[k + 1..]);
    }
  }

  /** One more of the list fits after the first i exactly if there is room for the first i + 1. */
  lemma NextFits(w: Wiring, nodes0: Nodes, edges0: Links, nodes: Nodes, edges: Links, rs: seq<Resource>, i: nat)
    requires i < |rs| && Tidy(nodes, edges) && WellFormed(w, rs[i]) && RoomForAll(w, nodes0, edges0, rs[..i])
    requires Moved(nodes0, edges0, nodes, edges, SumOf(w, rs[..i]))
    ensures Fits(w, nodes, edges, rs[i]) <==> RoomForAll(w, nodes0, edges0, rs[..i + 1])
  {
    assert rs[..i + 1] == rs[..i] + [rs[i]];
    FitsIff(w, nodes, edges, rs[i]);
    RoomAfter(w, nodes0, edges0, nodes, edges, rs[..i], [rs[i]]);
  }

  /** The resource takes nothing from any meter. */
  predicate Idle(w: Wiring, r: Resource) {
    if r.IsVlan() then NodesOf(r) == [] && PairsOf(w, r) == [] else PairsOf(w, r) == [] || r.Value() == 0
  }

  lemma {:induction false} TimesZero(pairs: seq<Hop>, e: Edge)
    ensures Times(pairs, 0, e) == 0
    decreases |pairs|
  {
    if pairs != [] { TimesZero(pairs[..|pairs| - 1], e); }
  }

  lemma IdleIff(w: Wiring, r: Resource)
    requires WellFormed(w, r)
    ensures Idle(w, r) <==> forall m :: Take(w, r, m) == 0
  {
    if Idle(w, r) {
      forall m ensures Take(w, r, m) == 0 {
        if m.Bw? { TimesZero(PairsOf(w, r), m.e); }
      }
    } else if PairsOf(w, r) != [] {
      var h := PairsOf(w, r)[0];
      var e := Pair(h.0, h.1);
      assert h in PairsOf(w, r) && Crosses(h, e);
      TimesDistinct(PairsOf(w, r), if r.IsVlan() then 1 else r.Value(), e);
      assert Take(w, r, if r.IsVlan() then EdgeVlan(e, r.Value()) else Bw(e)) != 0;
    } else {
      var n := NodesOf(r)[0];
      OccursDistinct(NodesOf(r), n);
      assert Take(w, r, NodeVlan(n, r.Value())) != 0;
    }
  }

  predicate AllIdle(w: Wiring, rs: seq<Resource>) {
    forall r :: r in rs ==> Idle(w, r)
  }

  ghost predicate TakesNothing(w: Wiring, rs: seq<Resource>) {
    forall m {:trigger Sum(w, rs, m)} :: Sum(w, rs, m) == 0
  }

  lemma {:induction false} AllIdleIff(w: Wiring, rs: seq<Resource>)
    requires forall r :: r in rs ==> WellFormed(w, r)
    ensures AllIdle(w, rs) <==> TakesNothing(w, rs)
    decreases |rs|
  {
    if rs != [] {
      var front, last := rs[..|rs| - 1], rs[|rs| - 1];
      assert rs == front + [last];
      AllIdleIff(w, front);
      IdleIff(w, last);
      forall m
        ensures Sum(w, rs, m) == Sum(w, front, m) + Take(w, last, m)
        ensures 0 <= Sum(w, front, m) && 0 <= Take(w, last, m)
      {
        LastSign(w, front, last, m);
      }
      if TakesNothing(w, rs) {
        forall m ensures Sum(w, front, m) == 0 && Take(w, last, m) == 0 {
          assert Sum(w, rs, m) == 0;
        }
      }
    }
  }

  lemma LastSign(w: Wiring, front: seq<Resource>, last: Resource, m: Meter)
    requires (forall r :: r in front ==> WellFormed(w, r)) && WellFormed(w, last)
    ensures Sum(w, front + [last], m) == Sum(w, front, m) + Take(w, last, m)
    ensures Sum(w, front, m) >= 0 && Take(w, last, m) >= 0
  {
    SumLast(w, front, last, m);
    SumSign(w, front, m);
    SumSign(w, [last], m);
    SumOne(w, last, m);
  }

  /** If the whole list is accounted for, then after removing a prefix the next entry still is. */
  lemma StillHeld(w: Wiring, nodes0: Nodes, edges0: Links, nodes: Nodes, edges: Links, rs: seq<Resource>, i: nat)
    requires i < |rs| && forall r :: r in rs ==> WellFormed(w, r)
    requires Moved(nodes0, edges0, nodes, edges, MinusSum(w, rs[..i]))
    ensures Accounted(w, nodes0, edges0, rs) ==> Held(w, nodes, edges, rs[i])
  {
    if Accounted(w, nodes0, edges0, rs) {
      assert Placed(w, nodes0, edges0, rs[i]);
      forall m ensures Take(w, rs[i], m) <= Read(nodes, edges, m) {
        SumStep(w, rs, i, m);
        SumSplit(w, rs, i + 1, m);
        assert Sum(w, rs, m) <= Read(nodes0, edges0, m);
      }
      AccountedHeld(w, nodes, edges, rs[i]);
    }
  }

  /** The first k resources stayed reserved: from the state before, they are the most that fits. */
  ghost predicate LeakedAt(w: Wiring, nodes0: Nodes, edges0: Links, before: seq<Resource>, after: seq<Resource>,
                           rs: seq<Resource>, k: nat) {
    k < |rs| && LongestFit(w, nodes0, edges0, rs, k) && after == before + rs[..k]
  }

  /** Reserving the list from here leaves nothing behind: all of it fits, or what comes before the first resource
      that does not fit takes nothing. */
  ghost predicate LosesNothing(w: Wiring, nodes: Nodes, edges: Links, rs: seq<Resource>) {
    RoomForAll(w, nodes, edges, rs) || exists k: nat :: LongestFit(w, nodes, edges, rs, k) && AllIdle(w, rs[..k])
  }

  /** What can be given back exists. */
  lemma HeldPlaced(w: Wiring, nodes: Nodes, edges: Links, r: Resource)
    requires Held(w, nodes, edges, r)
    ensures Placed(w, nodes, edges, r)
  {
    if r.IsVlan() {
      if n :| n in NodesOf(r) && !UsedOnNode(nodes, n, r.Value()) {
        NotEnough(nodes, edges, NodesOf(r), PairsOf(w, r), r.Value());
      }
      if h :| h in PairsOf(w, r) && !UsedOnLink(edges, h, r.Value()) {
        NotEnough(nodes, edges, NodesOf(r), PairsOf(w, r), r.Value());
      }
    }
    forall n | n in NodesOf(r) ensures n in nodes {
      assert UsedOnNode(nodes, n, r.Value());
    }
    forall h | h in PairsOf(w, r) ensures HasLink(edges, h) {
      assert if r.IsVlan() then UsedOnLink(edges, h, r.Value()) else HoldsBw(edges, h, r.Value());
    }
  }

  /** A list that was given back as a whole was accounted for: no meter went below zero. */
  lemma GivenAccounted(w: Wiring, nodes0: Nodes, edges0: Links, nodes: Nodes, edges: Links, rs: seq<Resource>)
    requires Tidy(nodes, edges) && Moved(nodes0, edges0, nodes, edges, MinusSum(w, rs))
    requires forall r :: r in rs ==> Placed(w, nodes0, edges0, r)
    ensures Accounted(w, nodes0, edges0, rs)
  {
    forall m: Meter ensures Sum(w, rs, m) <= Read(nodes0, edges0, m) {
      assert Read(nodes, edges, m) == Read(nodes0, edges0, m) - Sum(w, rs, m);
      assert 0 <= Read(nodes, edges, m);
    }
  }

  lemma AppendUnique(table: Table, row: Record)
    requires UniqueHashes(table) && forall r :: r in table ==> r.hash < row.hash
    ensures UniqueHashes(table + [row])
  {
    var t := table + [row];
    forall i, j | 0 <= i < j < |t| ensures t[i].hash != t[j].hash {
      assert t[i] in table;
    }
  }

  lemma PlacedStays(w: Wiring, nodes0: Nodes, edges0: Links, nodes: Nodes, edges: Links, x: Resource)
    requires nodes0.Keys == nodes.Keys && edges0.Keys == edges.Keys && Placed(w, nodes0, edges0, x)
    ensures Placed(w, nodes, edges, x)
  {
    forall h | h in PairsOf(w, x) ensures HasLink(edges, h) { assert HasLink(edges0, h); }
  }

  lemma AllPlacedStay(w: Wiring, nodes0: Nodes, edges0: Links, nodes: Nodes, edges: Links, rs: seq<Resource>,
                      owed: seq<Resource>, owed': seq<Resource>)
    requires nodes0.Keys == nodes.Keys && edges0.Keys == edges.Keys && PlacedBut(w, nodes0, edges0, rs, owed)
    requires forall x :: x in owed ==> x in owed'
    ensures PlacedBut(w, nodes, edges, rs, owed')
  {
    forall x | x in rs && x !in owed' ensures Placed(w, nodes, edges, x) {
      PlacedStays(w, nodes0, edges0, nodes, edges, x);
    }
  }

  /** The books after a list of resources was reserved and the row for it was not added. */
  lemma BooksLeak(w: Wiring, nodes0: Nodes, edges0: Links, nodes: Nodes, edges: Links, table: Table, last: int,
                  leaked: seq<Resource>, owed: seq<Resource>, rs: seq<Resource>)
    requires BooksOk(w, nodes0, edges0, table, last, leaked, owed) && Tidy(nodes, edges)
    requires Moved(nodes0, edges0, nodes, edges, SumOf(w, rs)) && forall x :: x in rs ==> WellFormed(w, x)
    ensures BooksOk(w, nodes, edges, table, last + 1, leaked + rs, owed)
  {
    AllPlacedStay(w, nodes0, edges0, nodes, edges, ActiveResources(table), owed, owed);
    forall r | r in table ensures RowOk(w, r, last + 1) { assert RowOk(w, r, last); }
    forall m
      ensures Read(nodes, edges, m) + Sum(w, owed, m) == Sum(w, ActiveResources(table), m) + Sum(w, leaked + rs, m)
    {
      SumAppend(w, leaked, rs, m);
      assert Read(nodes0, edges0, m) + Sum(w, owed, m) == Sum(w, ActiveResources(table), m) + Sum(w, leaked, m);
    }
  }

  lemma RowsAdd(w: Wiring, table: Table, last: int, row: Record)
    requires UniqueHashes(table) && (forall r :: r in table ==> RowOk(w, r, last))
    requires row.hash == last + 1 && RowOk(w, row, last + 1)
    ensures UniqueHashes(table + [row]) && forall r :: r in table + [row] ==> RowOk(w, r, last + 1)
  {
    forall r | r in table ensures r.hash < row.hash && RowOk(w, r, last + 1) { assert RowOk(w, r, last); }
    AppendUnique(table, row);
  }

  /** If the meters moved by what a list takes, and the active resources grew by that list, the balance is kept. */
  lemma BalanceAdd(w: Wiring, nodes0: Nodes, edges0: Links, nodes: Nodes, edges: Links, table0: Table, table: Table,
                   leaked: seq<Resource>, owed: seq<Resource>, rs: seq<Resource>)
    requires Balanced(w, nodes0, edges0, table0, leaked, owed)
    requires Moved(nodes0, edges0, nodes, edges, SumOf(w, rs))
    requires ActiveResources(table) == ActiveResources(table0) + rs
    ensures Balanced(w, nodes, edges, table, leaked, owed)
  {
    forall m
      ensures Read(nodes, edges, m) + Sum(w, owed, m) == Sum(w, ActiveResources(table), m) + Sum(w, leaked, m)
    {
      SumAppend(w, ActiveResources(table0), rs, m);
      assert Read(nodes0, edges0, m) + Sum(w, owed, m) == Sum(w, ActiveResources(table0), m) + Sum(w, leaked, m);
    }
  }

  /** The books after a row was added together with the resources it holds. */
  lemma BooksAdd(w: Wiring, nodes0: Nodes, edges0: Links, nodes: Nodes, edges: Links, table: Table, last: int,
                 leaked: seq<Resource>, owed: seq<Resource>, row: Record, rs: seq<Resource>)
    requires BooksOk(w, nodes0, edges0, table, last, leaked, owed) && Tidy(nodes, edges)
    requires row.hash == last + 1 && RowOk(w, row, last + 1)
             && rs == (if row.state == Active then row.resources else [])
    requires Moved(nodes0, edges0, nodes, edges, SumOf(w, rs))
    requires forall x :: x in rs ==> Placed(w, nodes, edges, x)
    ensures BooksOk(w, nodes, edges, table + [row], last + 1, leaked, owed)
  {
    ActiveAppend(table, row);
    RowsAdd(w, table, last, row);
    BalanceAdd(w, nodes0, edges0, nodes, edges, table, table + [row], leaked, owed, rs);
    AllPlacedStay(w, nodes0, edges0, nodes, edges, ActiveResources(table), owed, owed);
  }

  lemma UniqueWithout(table: Table, i: nat)
    requires UniqueHashes(table) && i < |table|
    ensures UniqueHashes(table[..i] + table[i + 1..])
  {
    var t := table[..i] + table[i + 1..];
    forall j, k | 0 <= j < k < |t| ensures t[j].hash != t[k].hash {
      assert t[j] == table[if j < i then j else j + 1];
      assert t[k] == table[if k < i then k else k + 1];
    }
  }

  /** Deleting a row leaves no active resource that was not there. */
  lemma ActiveKept(table: Table, i: nat, x: Resource)
    requires i < |table| && x in ActiveResources(table[..i] + table[i + 1..])
    ensures x in ActiveResources(table)
  {
    var a, b := table[..i], table[i + 1..];
    SplitAt(table, i);
    ActiveBetween(a, table[i], b, x);
  }

  lemma ActiveBetween(a: Table, row: Record, b: Table, x: Resource)
    requires x in ActiveResources(a + b)
    ensures x in ActiveResources((a + [row]) + b)
  {
    ActiveConcat(a, b);
    ActiveConcat(a + [row], b);
    ActiveAppend(a, row);
  }

  /** The books after row i was deleted and the resources it held were given back. */
  lemma BooksDrop(w: Wiring, nodes0: Nodes, edges0: Links, nodes: Nodes, edges: Links, table: Table, i: nat, last: int,
                  leaked: seq<Resource>, owed: seq<Resource>, rs: seq<Resource>)
    requires BooksOk(w, nodes0, edges0, table, last, leaked, owed) && Tidy(nodes, edges) && i < |table|
    requires rs == if table[i].state == Active then table[i].resources else []
    requires Moved(nodes0, edges0, nodes, edges, MinusSum(w, rs))
    ensures Without(table, table[i].hash) == table[..i] + table[i + 1..]
    ensures BooksOk(w, nodes, edges, table[..i] + table[i + 1..], last, leaked, owed)
  {
    WithoutOne(table, i);
    RowsDrop(w, table, i, last);
    PlacedDrop(w, nodes0, edges0, nodes, edges, table, i, owed);
    BalanceDrop(w, nodes0, edges0, nodes, edges, table, i, leaked, owed, rs);
  }

  lemma RowsDrop(w: Wiring, table: Table, i: nat, last: int)
    requires UniqueHashes(table) && i < |table| && forall r :: r in table ==> RowOk(w, r, last)
    ensures UniqueHashes(table[..i] + table[i + 1..])
    ensures forall r :: r in table[..i] + table[i + 1..] ==> RowOk(w, r, last)
  {
    UniqueWithout(table, i);
    DeleteMembers(table, i);
  }

  lemma PlacedDrop(w: Wiring, nodes0: Nodes, edges0: Links, nodes: Nodes, edges: Links, table: Table, i: nat,
                   owed: seq<Resource>)
    requires nodes0.Keys == nodes.Keys && edges0.Keys == edges.Keys && i < |table|
    requires PlacedBut(w, nodes0, edges0, ActiveResources(table), owed)
    ensures PlacedBut(w, nodes, edges, ActiveResources(table[..i] + table[i + 1..]), owed)
  {
    var t := table[..i] + table[i + 1..];
    forall x | x in ActiveResources(t) ensures x in ActiveResources(table) {
      ActiveKept(table, i, x);
    }
    AllPlacedStay(w, nodes0, edges0, nodes, edges, ActiveResources(t), owed, owed);
  }

  lemma BalanceDrop(w: Wiring, nodes0: Nodes, edges0: Links, nodes: Nodes, edges: Links, table: Table, i: nat,
                    leaked: seq<Resource>, owed: seq<Resource>, rs: seq<Resource>)
    requires UniqueHashes(table) && i < |table| && rs == if table[i].state == Active then table[i].resources else []
    requires Balanced(w, nodes0, edges0, table, leaked, owed) && Moved(nodes0, edges0, nodes, edges, MinusSum(w, rs))
    ensures Balanced(w, nodes, edges, table[..i] + table[i + 1..], leaked, owed)
  {
    var t := table[..i] + table[i + 1..];
    forall m ensures Read(nodes, edges, m) + Sum(w, owed, m) == Sum(w, ActiveResources(t), m) + Sum(w, leaked, m) {
      DeleteSum(w, table, i, m);
      assert Read(nodes0, edges0, m) + Sum(w, owed, m) == Sum(w, ActiveResources(table), m) + Sum(w, leaked, m);
    }
  }

  /** The books after a removal raised halfway: what was given back is owed to the rule, still active. */
  lemma BooksOwe(w: Wiring, nodes0: Nodes, edges0: Links, nodes: Nodes, edges: Links, table: Table, last: int,
                 leaked: seq<Resource>, owed: seq<Resource>, rs: seq<Resource>)
    requires BooksOk(w, nodes0, edges0, table, last, leaked, owed) && Tidy(nodes, edges)
    requires Moved(nodes0, edges0, nodes, edges, MinusSum(w, rs))
    ensures BooksOk(w, nodes, edges, table, last, leaked, owed + rs)
  {
    AllPlacedStay(w, nodes0, edges0, nodes, edges, ActiveResources(table), owed, owed + rs);
    forall m
      ensures Read(nodes, edges, m) + Sum(w, owed + rs, m) == Sum(w, ActiveResources(table), m) + Sum(w, leaked, m)
    {
      SumAppend(w, owed, rs, m);
      assert Read(nodes0, edges0, m) + Sum(w, owed, m) == Sum(w, ActiveResources(table), m) + Sum(w, leaked, m);
    }
  }

  /** The books after the waiting row k was marked active and the first `taken` of its resources were
      reserved; the others are owed. */
  lemma BooksActivate(w: Wiring, nodes0: Nodes, edges0: Links, nodes: Nodes, edges: Links, table: Table, k: nat,
                      last: int,
                      leaked: seq<Resource>, owed: seq<Resource>, taken: nat)
    requires BooksOk(w, nodes0, edges0, table, last, leaked, owed) && Tidy(nodes, edges)
    requires k < |table| && table[k].state != Active && taken <= |table[k].resources|
    requires Moved(nodes0, edges0, nodes, edges, SumOf(w, table[k].resources[..taken]))
    requires forall x :: x in table[k].resources[..taken] ==> Placed(w, nodes, edges, x)
    ensures BooksOk(w, nodes, edges, WithState(table, table[k].hash, Active), last, leaked,
                    owed + table[k].resources[taken..])
  {
    var t, rs := WithState(table, table[k].hash, Active), table[k].resources;
    var owed' := owed + rs[taken..];
    assert rs == rs[..taken] + rs[taken..];
    forall r | r in t ensures RowOk(w, r, last) {
      var j :| 0 <= j < |t| && t[j] == r;
      assert RowOk(w, table[j], last);
    }
    forall x | x in ActiveResources(t) ensures x in owed' || Placed(w, nodes, edges, x) {
      ActiveIn(t, x);
      var r :| r in t && r.state == Active && x in r.resources;
      var j :| 0 <= j < |t| && t[j] == r;
      if j == k {
        assert x in rs;
      } else {
        assert t[j] == table[j];
        ActiveHas(table, j, x);
        if x !in owed { PlacedStays(w, nodes0, edges0, nodes, edges, x); }
      }
    }
    forall m ensures Read(nodes, edges, m) + Sum(w, owed', m) == Sum(w, ActiveResources(t), m) + Sum(w, leaked, m) {
      ActivateSum(w, table, k, m);
      SumAppend(w, owed, rs[taken..], m);
      SumAppend(w, rs[..taken], rs[taken..], m);
      assert Read(nodes0, edges0, m) + Sum(w, owed, m) == Sum(w, ActiveResources(table), m) + Sum(w, leaked, m);
    }
  }

  /** As long as nothing is owed, everything an active rule holds is on the meters. */
  lemma ActiveAccounted(w: Wiring, nodes: Nodes, edges: Links, table: Table, i: nat, last: int, leaked: seq<Resource>)
    requires BooksOk(w, nodes, edges, table, last, leaked, []) && i < |table| && table[i].state == Active
    ensures Accounted(w, nodes, edges, table[i].resources)
  {
    var rs := table[i].resources;
    forall x | x in rs ensures Placed(w, nodes, edges, x) {
      ActiveHas(table, i, x);
    }
    forall m ensures Sum(w, rs, m) <= Read(nodes, edges, m) {
      DeleteSum(w, table, i, m);
      var others := ActiveResources(table[..i] + table[i + 1..]);
      forall x | x in others ensures WellFormed(w, x) {
        ActiveIn(table[..i] + table[i + 1..], x);
        var r :| r in table[..i] + table[i + 1..] && r.state == Active && x in r.resources;
        assert r in table && RowOk(w, r, last);
      }
      SumSign(w, others, m);
      SumSign(w, leaked, m);
      assert Read(nodes, edges, m) + Sum(w, [], m) == Sum(w, ActiveResources(table), m) + Sum(w, leaked, m);
    }
  }

  /** Losing a row that was not waiting does not change when the timer is due. */
  lemma ScheduledWithout(table: Table, t: Table, row: Record, next: Option<int>)
    requires (forall r :: r in t ==> r in table) && forall r :: r in table ==> r in t || r == row
    requires row.state != Inactive && Scheduled(table, next)
    ensures Scheduled(t, next)
  {
  }

  lemma ScheduledWith(table: Table, row: Record, next: Option<int>)
    requires row.state != Inactive && Scheduled(table, next)
    ensures Scheduled(table + [row], next)
  {
    forall r | r in table + [row] ensures r in table || r == row {}
    if next.Some? {
      var r :| r in table && r.state == Inactive && r.start == next;
      assert r in table + [row];
    }
  }

  lemma DeleteMembers(table: Table, i: nat)
    requires i < |table|
    ensures forall r :: r in table[..i] + table[i + 1..] ==> r in table
    ensures forall r :: r in table ==> r in table[..i] + table[i + 1..] || r == table[i]
  {
    assert table == table[..i] + [table[i]] + table[i + 1..];
  }

  lemma {:induction false} InsertUnique(r: Record, rows: Table)
    requires UniqueHashes(rows) && forall x :: x in rows ==> x.hash != r.hash
    ensures UniqueHashes(InsertByStart(r, rows))
  {
    var t := InsertByStart(r, rows);
    if rows != [] && StartOf(r) > StartOf(rows[0]) {
      assert rows == [rows[0]] + rows[1..];
      InsertUnique(r, rows[1..]);
      InsertKeeps(r, rows[1..]);
      forall x | x in t[1..] ensures x.hash != rows[0].hash {
        if x != r {
          var j :| 0 <= j < |rows[1..]| && rows[1..][j] == x;
          assert rows[0].hash != rows[j + 1].hash;
        }
      }
      forall j | 0 < j < |t| ensures t[0].hash != t[j].hash { assert t[j] in t[1..]; }
      forall i, j | 0 <= i < j < |t| ensures t[i].hash != t[j].hash {
        if i > 0 { assert t[i] == t[1..][i - 1] && t[j] == t[1..][j - 1]; }
      }
    }
  }

  lemma {:induction false} QueryUnique(table: Table)
    requires UniqueHashes(table)
    ensures UniqueHashes(InactiveByStart(table))
  {
    if table != [] {
      QueryUnique(table[1..]);
      QueryKeeps(table[1..]);
      if table[0].state == Inactive {
        forall x | x in InactiveByStart(table[1..]) ensures x.hash != table[0].hash {
          var j :| 0 <= j < |table[1..]| && table[1..][j] == x;
          assert table[0].hash != table[j + 1].hash;
        }
        InsertUnique(table[0], InactiveByStart(table[1..]));
      }
    }
  }

  /** The i-th waiting row is still waiting after the ones before it were activated. */
  lemma NextWaiting(table: Table, i: nat) returns (k: nat)
    requires UniqueHashes(table) && i < |InactiveByStart(table)|
    ensures k < |table| && table[k] == InactiveByStart(table)[i] && table[k].state == Inactive
    ensures Activated(table, HashesOf(InactiveByStart(table)[..i]))[k] == table[k]
    ensures WithState(Activated(table, HashesOf(InactiveByStart(table)[..i])), table[k].hash, Active)
         == Activated(table, HashesOf(InactiveByStart(table)[..i + 1]))
  {
    var rows := InactiveByStart(table);
    QueryKeeps(table);
    QueryUnique(table);
    assert rows[i] in rows;
    k :| 0 <= k < |table| && table[k] == rows[i];
    forall x | x in rows[..i] ensures x.hash != table[k].hash {
      var j :| 0 <= j < i && rows[j] == x;
    }
    assert table[k].hash !in HashesOf(rows[..i]);
    assert rows[..i + 1] == rows[..i] + [rows[i]];
    HashesGrow(rows[..i], rows[i]);
    var before := Activated(table, HashesOf(rows[..i]));
    assert WithState(before, table[k].hash, Active) == Activated(table, HashesOf(rows[..i]) + {table[k].hash});
  }

  lemma HashesGrow(rows: Table, row: Record)
    ensures HashesOf(rows + [row]) == HashesOf(rows) + {row.hash}
  {
    forall h | h in HashesOf(rows) + {row.hash} ensures h in HashesOf(rows + [row]) {
      if h in HashesOf(rows) {
        var x :| x in rows && x.hash == h;
        assert x in rows + [row];
      } else {
        assert row in rows + [row];
      }
    }
  }

  /** What the callback has reserved when it is about to ask for resource t of the k-th waiting row. */
  function Ahead(rows: Table, k: nat, t: nat): seq<Resource>
    requires k < |rows| && t <= |rows[k].resources|
  {
    ResourcesOf(rows[..k]) + rows[k].resources[..t]
  }

  /** Starting from here, the callback will fail at resource t of the k-th waiting row: there is room for what
      comes before it, but not for that one too. */
  ghost predicate StopsAt(w: Wiring, nodes: Nodes, edges: Links, rows: Table, now: int, k: nat, t: nat) {
    && k < DueCount(rows, now) && t < |rows[k].resources|
    && RoomForAll(w, nodes, edges, Ahead(rows, k, t)) && !RoomForAll(w, nodes, edges, Ahead(rows, k, t + 1))
  }

  /** That row and the ones before it are active then, and the rest of its resources is owed to it. */
  ghost predicate StoppedAt(rows: Table, table: Table, table': Table, owed: seq<Resource>, owed': seq<Resource>,
                            k: nat, t: nat) {
    && k < |rows| && t < |rows[k].resources|
    && table' == Activated(table, HashesOf(rows[..k + 1])) && owed' == owed + rows[k].resources[t..]
  }

  /** What the callback would find missing takes nothing. */
  ghost predicate MissesNothing(w: Wiring, nodes: Nodes, edges: Links, rows: Table, now: int) {
    forall k: nat, t: nat :: StopsAt(w, nodes, edges, rows, now, k, t) ==> AllIdle(w, rows[k].resources[t..])
  }

  ghost predicate RowsFormed(w: Wiring, rows: Table) {
    forall r, x :: r in rows && x in r.resources ==> WellFormed(w, x)
  }

  lemma RegroupMany<T>(a: seq<T>, b: seq<T>, c: seq<T>, d: seq<T>, e: seq<T>)
    ensures ((a + (b + c)) + d) + e == (a + b) + ((c + d) + e)
  {
  }

  lemma OwnFormed(w: Wiring, rows: Table, k: nat, from: nat, to: nat)
    requires RowsFormed(w, rows) && k < |rows| && from <= to <= |rows[k].resources|
    ensures forall x :: x in rows[k].resources[from..to] ==> WellFormed(w, x)
  {
    assert rows[k] in rows;
  }

  lemma AheadLater(rows: Table, k: nat, t: nat, k': nat, t': nat) returns (between: seq<Resource>)
    requires k < k' < |rows| && t <= |rows[k].resources| && t' <= |rows[k'].resources|
    ensures Ahead(rows, k', t') == Ahead(rows, k, t) + ((rows[k].resources[t..] + between) + rows[k'].resources[..t'])
    ensures forall x :: x in between ==> exists r :: r in rows && x in r.resources
  {
    var own := rows[k].resources;
    between := ResourcesSplit(rows[..k'], k + 1);
    forall x | x in between ensures exists r :: r in rows && x in r.resources {
      var r :| r in rows[..k'] && x in r.resources;
      assert r in rows;
    }
    assert rows[..k'][..k + 1] == rows[..k + 1];
    ResourcesStep(rows, k);
    assert own == own[..t] + own[t..];
    RegroupMany(ResourcesOf(rows[..k]), own[..t], own[t..], between, rows[k'].resources[..t']);
  }

  /** The list of what is reserved only grows from one point of the callback to a later one. */
  lemma AheadGrows(w: Wiring, rows: Table, k: nat, t: nat, k': nat, t': nat) returns (rest: seq<Resource>)
    requires RowsFormed(w, rows) && k < |rows| && k' < |rows| && t <= |rows[k].resources| && t' <= |rows[k'].resources|
    requires k < k' || (k == k' && t <= t')
    ensures Ahead(rows, k', t') == Ahead(rows, k, t) + rest && forall x :: x in rest ==> WellFormed(w, x)
  {
    var own := rows[k].resources;
    if k == k' {
      rest := own[t..t'];
      assert own[..t'] == own[..t] + rest;
      OwnFormed(w, rows, k, t, t');
    } else {
      var between := AheadLater(rows, k, t, k', t');
      OwnFormed(w, rows, k, t, |own|);
      OwnFormed(w, rows, k', 0, t');
      rest := (own[t..] + between) + rows[k'].resources[..t'];
    }
  }

  lemma StopsOnce(w: Wiring, nodes: Nodes, edges: Links, rows: Table, now: int, k: nat, t: nat, k': nat, t': nat)
    requires RowsFormed(w, rows) && StopsAt(w, nodes, edges, rows, now, k, t)
    requires StopsAt(w, nodes, edges, rows, now, k', t')
    ensures k' < k || (k == k' && t' <= t)
  {
    if k < k' || (k == k' && t < t') {
      var rest := AheadGrows(w, rows, k, t + 1, k', t');
      RoomForFewer(w, nodes, edges, Ahead(rows, k, t + 1), rest);
    }
  }

  lemma MissesIff(w: Wiring, nodes: Nodes, edges: Links, rows: Table, now: int, k: nat, t: nat)
    requires RowsFormed(w, rows) && StopsAt(w, nodes, edges, rows, now, k, t)
    ensures MissesNothing(w, nodes, edges, rows, now) <==> AllIdle(w, rows[k].resources[t..])
  {
    forall k': nat, t': nat | StopsAt(w, nodes, edges, rows, now, k', t') ensures k' == k && t' == t {
      StopsOnce(w, nodes, edges, rows, now, k, t, k', t');
      StopsOnce(w, nodes, edges, rows, now, k', t', k, t);
    }
  }

  /** A callback that stops somewhere has no room for everything. */
  lemma StopsShort(w: Wiring, nodes: Nodes, edges: Links, rows: Table, now: int, k: nat, t: nat)
    requires RowsFormed(w, rows) && StopsAt(w, nodes, edges, rows, now, k, t)
    ensures !RoomForAll(w, nodes, edges, ResourcesOf(rows[..DueCount(rows, now)]))
  {
    var last := DueCount(rows, now) - 1;
    var own := rows[last].resources;
    ResourcesStep(rows, last);
    assert own[..|own|] == own;
    var rest := AheadGrows(w, rows, k, t + 1, last, |own|);
    if RoomForAll(w, nodes, edges, Ahead(rows, last, |own|)) {
      RoomForFewer(w, nodes, edges, Ahead(rows, k, t + 1), rest);
    }
  }

  /** The waiting row behind the first k + 1 has to start when the first one had to. */
  predicate NextAtOnce(rows: Table, k: nat) {
    k + 1 < |rows| && StartOf(rows[k + 1]) == StartOf(rows[0])
  }

  /** If the callback will fail from here, the timer stays right all the same. */
  ghost predicate TimerSurvives(w: Wiring, nodes: Nodes, edges: Links, rows: Table, now: int) {
    forall k: nat, t: nat :: StopsAt(w, nodes, edges, rows, now, k, t) ==> NextAtOnce(rows, k)
  }

  lemma SurvivesIff(w: Wiring, nodes: Nodes, edges: Links, rows: Table, now: int, k: nat, t: nat)
    requires RowsFormed(w, rows) && StopsAt(w, nodes, edges, rows, now, k, t)
    ensures TimerSurvives(w, nodes, edges, rows, now) <==> NextAtOnce(rows, k)
  {
    forall k': nat, t': nat | StopsAt(w, nodes, edges, rows, now, k', t') ensures k' == k {
      StopsOnce(w, nodes, edges, rows, now, k, t, k', t');
      StopsOnce(w, nodes, edges, rows, now, k', t', k, t);
    }
  }

  lemma HashTaken(rows: Table, k: nat, j: nat)
    requires UniqueHashes(rows) && k < |rows| && j < |rows|
    ensures rows[j].hash in HashesOf(rows[..k + 1]) <==> j <= k
  {
    if j <= k { assert rows[..k + 1][j] == rows[j]; }
    if rows[j].hash in HashesOf(rows[..k + 1]) {
      var x :| x in rows[..k + 1] && x.hash == rows[j].hash;
      var l :| 0 <= l <= k && rows[l] == x;
      assert l == j;
    }
  }

  /** Once the first k + 1 waiting rows are active, those behind them are waiting. */
  lemma StillWaiting(table: Table, k: nat, r: Record)
    requires UniqueHashes(table) && k < |InactiveByStart(table)|
    ensures r in Activated(table, HashesOf(InactiveByStart(table)[..k + 1])) && r.state == Inactive
            <==> r in InactiveByStart(table)[k + 1..]
  {
    var rows, H := InactiveByStart(table), HashesOf(InactiveByStart(table)[..k + 1]);
    var after := Activated(table, H);
    QueryKeeps(table);
    QueryUnique(table);
    if r in after && r.state == Inactive {
      var i :| 0 <= i < |after| && after[i] == r;
      assert table[i] == r && r.hash !in H && r in rows;
      var j :| 0 <= j < |rows| && rows[j] == r;
      HashTaken(rows, k, j);
      assert rows[k + 1..][j - k - 1] == r;
    }
    if r in rows[k + 1..] {
      var j :| k + 1 <= j < |rows| && rows[j] == r;
      HashTaken(rows, k, j);
      assert r in rows;
      var i :| 0 <= i < |table| && table[i] == r;
      assert after[i] == r;
    }
  }

  /** A timer that was right before them is right after them exactly if the next one starts at the same time. */
  lemma ScheduledAfter(table: Table, k: nat, next: Option<int>)
    requires UniqueHashes(table) && StartsKnown(table) && k < |InactiveByStart(table)| && Scheduled(table, next)
    ensures Scheduled(Activated(table, HashesOf(InactiveByStart(table)[..k + 1])), next)
       <==> NextAtOnce(InactiveByStart(table), k)
  {
    var rows := InactiveByStart(table);
    var after := Activated(table, HashesOf(rows[..k + 1]));
    QueryKeeps(table);
    FirstScheduled(table, next);
    if NextAtOnce(rows, k) {
      var r := rows[k + 1];
      assert r in rows && r in rows[k + 1..];
      StillWaiting(table, k, r);
      forall x | x in after && x.state == Inactive ensures StartOf(rows[0]) <= StartOf(x) {
        StillWaiting(table, k, x);
        assert x in rows;
      }
    }
    if Scheduled(after, next) {
      var r :| r in after && r.state == Inactive && r.start == next;
      StillWaiting(table, k, r);
      var j :| 0 <= j < |rows[k + 1..]| && rows[k + 1..][j] == r;
      assert StartOf(rows[0]) <= StartOf(rows[k + 1]) <= StartOf(rows[k + 1 + j]);
    }
  }

  lemma FirstScheduled(table: Table, next: Option<int>)
    requires StartsKnown(table) && InactiveByStart(table) != [] && Scheduled(table, next)
    ensures next == Some(StartOf(InactiveByStart(table)[0]))
  {
    var first := InactiveByStart(table)[0];
    QueryKeeps(table);
    assert first in InactiveByStart(table);
    var r :| r in table && r.state == Inactive && r.start == next;
    FirstEarliest(table, r);
  }

  lemma FirstEarliest(table: Table, r: Record)
    requires r in table && r.state == Inactive
    ensures InactiveByStart(table) != [] && StartOf(InactiveByStart(table)[0]) <= StartOf(r)
  {
    var rows := InactiveByStart(table);
    QueryKeeps(table);
    assert r in rows;
    var j :| 0 <= j < |rows| && rows[j] == r;
    assert j > 0 ==> StartOf(rows[0]) <= StartOf(rows[j]);
  }

  lemma FitsToEnd(w: Wiring, nodes: Nodes, edges: Links, rows: Table, now: int)
    requires RowsFormed(w, rows) && RoomForAll(w, nodes, edges, ResourcesOf(rows[..DueCount(rows, now)]))
    ensures MissesNothing(w, nodes, edges, rows, now)
  {
    if k: nat, t: nat :| StopsAt(w, nodes, edges, rows, now, k, t) {
      StopsShort(w, nodes, edges, rows, now, k, t);
    }
  }

  datatype Op =
    | Add(start: Option<int>, stop: Option<int>, resources: seq<Resource>, now: int)
    | Remove(hash: int, authorized: bool)
    | Pop(now: int)

  /** Every meter shows exactly what the active rules hold. */
  ghost predicate Conserved(w: Wiring, nodes: Nodes, edges: Links, table: Table) {
    forall m {:trigger Read(nodes, edges, m)} :: Read(nodes, edges, m) == Sum(w, ActiveResources(table), m)
  }

  ghost predicate Cancel(w: Wiring, leaked: seq<Resource>, owed: seq<Resource>) {
    forall m {:trigger Sum(w, leaked, m)} :: Sum(w, leaked, m) == Sum(w, owed, m)
  }

  /** Conservation holds exactly when what leaked and what is owed cancel out, and so in particular
      when nothing ever failed. */
  lemma ConservedIff(w: Wiring, nodes: Nodes, edges: Links, table: Table, leaked: seq<Resource>, owed: seq<Resource>)
    requires Balanced(w, nodes, edges, table, leaked, owed)
    ensures Conserved(w, nodes, edges, table) <==> Cancel(w, leaked, owed)
  {
    if Conserved(w, nodes, edges, table) {
      forall m ensures Sum(w, leaked, m) == Sum(w, owed, m) {
        assert Read(nodes, edges, m) == Sum(w, ActiveResources(table), m);
      }
    }
    if Cancel(w, leaked, owed) {
      forall m ensures Read(nodes, edges, m) == Sum(w, ActiveResources(table), m) {
        assert Sum(w, leaked, m) == Sum(w, owed, m);
      }
    }
  }

  /** Nothing new leaked and nothing new is owed, so conservation survives. */
  lemma ConservedStays(w: Wiring, nodes0: Nodes, edges0: Links, table0: Table, nodes: Nodes, edges: Links, table: Table,
                       leaked: seq<Resource>, owed: seq<Resource>)
    requires Balanced(w, nodes0, edges0, table0, leaked, owed) && Balanced(w, nodes, edges, table, leaked, owed)
    requires Conserved(w, nodes0, edges0, table0)
    ensures Conserved(w, nodes, edges, table)
  {
    ConservedIff(w, nodes0, edges0, table0, leaked, owed);
    ConservedIff(w, nodes, edges, table, leaked, owed);
  }

  /** It survives a leak exactly if what leaked takes nothing. */
  lemma ConservedLeak(w: Wiring, nodes0: Nodes, edges0: Links, nodes: Nodes, edges: Links, table: Table,
                      leaked: seq<Resource>, owed: seq<Resource>, rs: seq<Resource>)
    requires Balanced(w, nodes0, edges0, table, leaked, owed) && Balanced(w, nodes, edges, table, leaked + rs, owed)
    requires Conserved(w, nodes0, edges0, table) && forall r :: r in rs ==> WellFormed(w, r)
    ensures Conserved(w, nodes, edges, table) <==> AllIdle(w, rs)
  {
    ConservedIff(w, nodes0, edges0, table, leaked, owed);
    ConservedIff(w, nodes, edges, table, leaked + rs, owed);
    AllIdleIff(w, rs);
    forall m ensures Sum(w, leaked + rs, m) == Sum(w, owed, m) + Sum(w, rs, m) {
      SumAppend(w, leaked, rs, m);
      assert Sum(w, leaked, m) == Sum(w, owed, m);
    }
    if Cancel(w, leaked + rs, owed) {
      forall m ensures Sum(w, rs, m) == 0 { assert Sum(w, leaked + rs, m) == Sum(w, owed, m); }
    }
  }

  /** And an installation that is owed a rest exactly if that rest takes nothing. */
  lemma ConservedOwe(w: Wiring, nodes0: Nodes, edges0: Links, table0: Table, nodes: Nodes, edges: Links, table: Table,
                     leaked: seq<Resource>, owed: seq<Resource>, rs: seq<Resource>)
    requires Balanced(w, nodes0, edges0, table0, leaked, owed) && Balanced(w, nodes, edges, table, leaked, owed + rs)
    requires Conserved(w, nodes0, edges0, table0) && forall r :: r in rs ==> WellFormed(w, r)
    ensures Conserved(w, nodes, edges, table) <==> AllIdle(w, rs)
  {
    ConservedIff(w, nodes0, edges0, table0, leaked, owed);
    ConservedIff(w, nodes, edges, table, leaked, owed + rs);
    AllIdleIff(w, rs);
    forall m ensures Sum(w, owed + rs, m) == Sum(w, leaked, m) + Sum(w, rs, m) {
      SumAppend(w, owed, rs, m);
      assert Sum(w, leaked, m) == Sum(w, owed, m);
    }
    if Cancel(w, leaked, owed + rs) {
      forall m ensures Sum(w, rs, m) == 0 { assert Sum(w, leaked, m) == Sum(w, owed + rs, m); }
    }
  }

  lemma TwoShares(w: Wiring, rs: seq<Resource>, a: nat, b: nat, m: Meter)
    requires a < b < |rs| && forall r :: r in rs ==> WellFormed(w, r)
    ensures Take(w, rs[a], m) + Take(w, rs[b], m) <= Sum(w, rs, m)
  {
    var first, middle, rest := rs[..a], rs[a + 1..b], rs[b + 1..];
    assert rs == first + [rs[a]] + middle + [rs[b]] + rest;
    SumAppend(w, first + [rs[a]] + middle + [rs[b]], rest, m);
    SumAppend(w, first + [rs[a]] + middle, [rs[b]], m);
    SumAppend(w, first + [rs[a]], middle, m);
    SumAppend(w, first, [rs[a]], m);
    SumOne(w, rs[a], m);
    SumOne(w, rs[b], m);
    SumSign(w, first, m);
    SumSign(w, middle, m);
    SumSign(w, rest, m);
  }

  /** While nothing is owed, no two reservations of active rules use the same VLAN in the same place. */
  lemma ExclusiveVlans(w: Wiring, nodes: Nodes, edges: Links, table: Table, last: int, leaked: seq<Resource>, a: nat,
                       b: nat, m: Meter)
    requires BooksOk(w, nodes, edges, table, last, leaked, []) && !m.Bw?
    requires a < b < |ActiveResources(table)|
    ensures Take(w, ActiveResources(table)[a], m) + Take(w, ActiveResources(table)[b], m) <= 1
  {
    var rs := ActiveResources(table);
    forall x | x in rs ensures WellFormed(w, x) {
      ActiveIn(table, x);
      var r :| r in table && r.state == Active && x in r.resources;
      assert RowOk(w, r, last);
    }
    TwoShares(w, rs, a, b, m);
    SumSign(w, leaked, m);
    assert Read(nodes, edges, m) + Sum(w, [], m) == Sum(w, rs, m) + Sum(w, leaked, m);
  }

  function StateAt(start: Option<int>, stop: Option<int>, now: int): State {
    if stop.Some? && now >= stop.value then Expired
    else if start.None? || now >= start.value then Active
    else Inactive
  }

  /** The rule is to be in force now: its time has come and is not over. */
  predicate IsDue(start: Option<int>, stop: Option<int>, now: int) {
    (start.Some? ==> start.value <= now) && (stop.Some? ==> now < stop.value)
  }

  /** The table has one more row, in the state that the times call for. */
  predicate Recorded(table0: Table, table: Table, hash: int, start: Option<int>, stop: Option<int>, now: int,
                     resources: seq<Resource>) {
    && |table| == |table0| + 1 && table[..|table0|] == table0
    && var row := table[|table0|];
       && row.hash == hash && row.start == start && row.stop == stop && row.resources == resources
       && (row.state == Expired <==> stop.Some? && stop.value <= now)
       && (row.state == Inactive <==> (stop.Some? ==> now < stop.value) && start.Some? && now < start.value)
       && (row.state == Active <==> IsDue(start, stop, now))
  }

  lemma RecordedAt(table: Table, hash: int, start: Option<int>, stop: Option<int>, now: int, resources: seq<Resource>)
    ensures var row := Record(hash, StateAt(start, stop, now), start, stop, resources);
            Recorded(table, table + [row], hash, start, stop, now, resources)
    ensures StateAt(start, stop, now) == Active <==> IsDue(start, stop, now)
    ensures StateAt(start, stop, now) == Inactive
       <==> (stop.Some? ==> now < stop.value) && start.Some? && now < start.value
  {
  }

  /** What came of an operation. */
  datatype Event = Adding(a: Added) | Removing(r: Removed) | Popped(ok: bool)

  /** What an operation that came to this does to the table. */
  ghost predicate After(op: Op, e: Event, table: Table, table': Table) {
    match op
    case Add(start, stop, resources, now) =>
      && e.Adding?
      && if e.a == Failed then IsDue(start, stop, now) && table' == table
         else Recorded(table, table', e.a.hash, start, stop, now, resources)
    case Remove(hash, authorized) =>
      && e.Removing?
      && (e.r == Unknown <==> forall r :: r in table ==> r.hash != hash)
      && (e.r == Unauthorized ==> !authorized)
      && if e.r == Gone then authorized && forall r :: r in table' <==> r in table && r.hash != hash
         else table' == table
    case Pop(now) => e.Popped? && (e.ok ==> CaughtUp(table, table', now))
  }

  ghost predicate Trace(ops: seq<Op>, log: seq<Event>, tables: seq<Table>) {
    |log| == |ops| && |tables| == |ops| + 1 &&
    forall i {:trigger After(ops[i], log[i], tables[i], tables[i + 1])} :: 0 <= i < |ops| ==>
      After(ops[i], log[i], tables[i], tables[i + 1])
  }

  lemma TraceMore(ops: seq<Op>, log: seq<Event>, tables: seq<Table>, i: nat, e: Event, table: Table)
    requires i < |ops| && Trace(ops[..i], log, tables) && After(ops[i], e, tables[i], table)
    ensures Trace(ops[..i + 1], log + [e], tables + [table])
  {
    forall k | 0 <= k < i + 1
      ensures After(ops[..i + 1][k], (log + [e])[k], (tables + [table])[k], (tables + [table])[k + 1])
    {
      if k < i { assert After(ops[..i][k], log[k], tables[k], tables[k + 1]); }
    }
  }

  lemma {:induction false} WithoutHas(table: Table, hash: int, r: Record)
    ensures r in Without(table, hash) <==> r in table && r.hash != hash
  {
    if table != [] {
      WithoutHas(table[1..], hash, r);
      assert table == [table[0]] + table[1..];
    }
  }

  lemma RemovedAfter(hash: int, table: Table)
    ensures RowOf(table, hash) == None <==> forall r :: r in table ==> r.hash != hash
    ensures forall r :: r in Without(table, hash) <==> r in table && r.hash != hash
  {
    RowOfFinds(table, hash);
    forall r ensures r in Without(table, hash) <==> r in table && r.hash != hash { WithoutHas(table, hash, r); }
  }

  class RuleManager {
    const tm: TopologyManager
    var table: Table
    var ruleNumber: int
    var installNextTime: Option<int>
    ghost var leaked: seq<Resource>
    ghost var owed: seq<Resource>

    /** The invariant of every run, whether or not reservations fail. */
    ghost predicate Valid()
      reads this, tm
    {
      BooksOk(tm.wiring, tm.nodes, tm.edges, table, ruleNumber, leaked, owed)
    }

    constructor (tm: TopologyManager)
      requires Tidy(tm.nodes, tm.edges) && forall m :: Read(tm.nodes, tm.edges, m) == 0
      ensures Valid() && this.tm == tm && table == [] && leaked == [] && owed == []
      ensures Scheduled(table, installNextTime)
    {
      this.tm := tm;
      table, ruleNumber, installNextTime, leaked, owed := [], 1, None, [], [];
    }

    method ReserveResources(rs: seq<Resource>) returns (ok: bool, ghost taken: nat)
      requires Tidy(tm.nodes, tm.edges) && forall r :: r in rs ==> WellFormed(tm.wiring, r)
      modifies tm`nodes, tm`edges
      ensures taken <= |rs| && (ok <==> taken == |rs|)
      ensures ok <==> RoomForAll(tm.wiring, old(tm.nodes), old(tm.edges), rs)
      ensures LongestFit(tm.wiring, old(tm.nodes), old(tm.edges), rs, taken)
      ensures Tidy(tm.nodes, tm.edges)
      ensures Moved(old(tm.nodes), old(tm.edges), tm.nodes, tm.edges, SumOf(tm.wiring, rs[..taken]))
    {
      taken := 0;
      for i := 0 to |rs|
        invariant taken == i && Tidy(tm.nodes, tm.edges)
        invariant Moved(old(tm.nodes), old(tm.edges), tm.nodes, tm.edges, SumOf(tm.wiring, rs[..i]))
        invariant RoomForAll(tm.wiring, old(tm.nodes), old(tm.edges), rs[..i])
      {
        ghost var nodes1, edges1 := tm.nodes, tm.edges;
        NextFits(tm.wiring, old(tm.nodes), old(tm.edges), nodes1, edges1, rs, i);
        var r := tm.ReserveResource(rs[i]);
        if r != Done {
          LongestAll(tm.wiring, old(tm.nodes), old(tm.edges), rs, i);
          return false, taken;
        }
        ReserveKeepsTidy(tm.wiring, nodes1, edges1, tm.nodes, tm.edges, rs[i]);
        forall m ensures Sum(tm.wiring, rs[..i], m) + Take(tm.wiring, rs[i], m) == Sum(tm.wiring, rs[..i + 1], m) {
          SumStep(tm.wiring, rs, i, m);
        }
        MovedBoth(old(tm.nodes), old(tm.edges), nodes1, edges1, tm.nodes, tm.edges,
                  SumOf(tm.wiring, rs[..i]), TakeOf(tm.wiring, rs[i]), SumOf(tm.wiring, rs[..i + 1]));
        taken := i + 1;
      }
      assert rs[..|rs|] == rs;
      ok := true;
    }

    method UnreserveResources(rs: seq<Resource>) returns (ok: bool, ghost given: nat)
      requires Tidy(tm.nodes, tm.edges) && forall r :: r in rs ==> WellFormed(tm.wiring, r)
      modifies tm`nodes, tm`edges
      ensures given <= |rs| && (ok <==> given == |rs|)
      ensures Tidy(tm.nodes, tm.edges)
      ensures Moved(old(tm.nodes), old(tm.edges), tm.nodes, tm.edges, MinusSum(tm.wiring, rs[..given]))
      ensures ok <==> Accounted(tm.wiring, old(tm.nodes), old(tm.edges), rs)
    {
      given := 0;
      for i := 0 to |rs|
        invariant given == i && Tidy(tm.nodes, tm.edges)
        invariant forall r :: r in rs[..i] ==> Placed(tm.wiring, old(tm.nodes), old(tm.edges), r)
        invariant Moved(old(tm.nodes), old(tm.edges), tm.nodes, tm.edges, MinusSum(tm.wiring, rs[..i]))
      {
        ghost var nodes1, edges1 := tm.nodes, tm.edges;
        var r := tm.UnreserveResource(rs[i]);
        if r != Done {
          StillHeld(tm.wiring, old(tm.nodes), old(tm.edges), nodes1, edges1, rs, i);
          return false, given;
        }
        UnreserveKeepsTidy(tm.wiring, nodes1, edges1, tm.nodes, tm.edges, rs[i]);
        HeldPlaced(tm.wiring, nodes1, edges1, rs[i]);
        PlacedStays(tm.wiring, nodes1, edges1, old(tm.nodes), old(tm.edges), rs[i]);
        forall m ensures -Sum(tm.wiring, rs[..i], m) - Take(tm.wiring, rs[i], m) == -Sum(tm.wiring, rs[..i + 1], m) {
          SumStep(tm.wiring, rs, i, m);
        }
        MovedBoth(old(tm.nodes), old(tm.edges), nodes1, edges1, tm.nodes, tm.edges,
                  MinusSum(tm.wiring, rs[..i]), MinusTake(tm.wiring, rs[i]),
                  MinusSum(tm.wiring, rs[..i + 1]));
        given := i + 1;
      }
      assert rs[..|rs|] == rs;
      GivenAccounted(tm.wiring, old(tm.nodes), old(tm.edges), tm.nodes, tm.edges, rs);
      ok := true;
    }

    method RestartInstallTimer()
      modifies this`installNextTime
      ensures StartsKnown(table) ==> Scheduled(table, installNextTime)
    {
      installNextTime := None;
      var rows := InactiveByStart(table);
      QueryKeeps(table);
      if |rows| > 0 {
        assert rows[0] in rows;
        installNextTime := rows[0].start;
      }
    }

    /** Puts the row into the table and sets the timer if the row is waiting. */
    method AddRow(row: Record)
      requires BooksOk(tm.wiring, tm.nodes, tm.edges, table + [row], ruleNumber, leaked, owed)
      modifies this`table, this`installNextTime
      ensures Valid() && table == old(table) + [row]
      ensures old(Scheduled(table, installNextTime)) || row.state == Inactive ==> Scheduled(table, installNextTime)
    {
      ghost var table0, next0 := table, installNextTime;
      table := table + [row];
      if row.state == Inactive {
        BooksKnowStarts(tm.wiring, tm.nodes, tm.edges, table, ruleNumber, leaked, owed);
        RestartInstallTimer();
      } else if Scheduled(table0, next0) {
        ScheduledWith(table0, row, next0);
      }
    }

    /** Adds a rule: active if its time has come, expired if it is over, waiting otherwise. It fails exactly if
        it is due and there is no room for all it needs. Then it is not added, and what was reserved by then
        stays behind, so the counters still equal the sums over the active rules exactly if that is nothing. */
    method AddRule(start: Option<int>, stop: Option<int>, resources: seq<Resource>, now: int) returns (r: Added)
      requires Valid() && forall x :: x in resources ==> WellFormed(tm.wiring, x)
      modifies this, tm`nodes, tm`edges
      ensures Valid() && ruleNumber == old(ruleNumber) + 1 && owed == old(owed)
      ensures SameShape(old(tm.nodes), old(tm.edges), tm.nodes, tm.edges)
      ensures r.Installed? ==> r.hash == ruleNumber && leaked == old(leaked)
      ensures r.Installed? ==> Recorded(old(table), table, r.hash, start, stop, now, resources)
      ensures r.Failed? <==>
        IsDue(start, stop, now) && !RoomForAll(tm.wiring, old(tm.nodes), old(tm.edges), resources)
      ensures !IsDue(start, stop, now) ==> tm.nodes == old(tm.nodes) && tm.edges == old(tm.edges)
      ensures r.Failed? ==> table == old(table) && installNextTime == old(installNextTime)
      ensures r.Failed? ==>
        exists k :: LeakedAt(tm.wiring, old(tm.nodes), old(tm.edges), old(leaked), leaked, resources, k)
      ensures old(Conserved(tm.wiring, tm.nodes, tm.edges, table)) ==>
        (Conserved(tm.wiring, tm.nodes, tm.edges, table) <==>
         !IsDue(start, stop, now)
         || LosesNothing(tm.wiring, old(tm.nodes), old(tm.edges), resources))
      ensures old(Scheduled(table, installNextTime)) ==> Scheduled(table, installNextTime)
      ensures r.Installed? && (stop.Some? ==> now < stop.value) && start.Some? && now < start.value ==>
        Scheduled(table, installNextTime)
    {
      var state := StateAt(start, stop, now);
      RecordedAt(table, ruleNumber + 1, start, stop, now, resources);
      ruleNumber := ruleNumber + 1;
      var row := Record(ruleNumber, state, start, stop, resources);
      var ok := Book(row);
      if !ok {
        return Failed;
      }
      AddRow(row);
      r := Installed(ruleNumber);
    }

    /** Reserves what a new row needs, if it is active. Either the books will balance once the row is added, or
        they balance without it and with what was reserved as leaked. */
    method Book(row: Record) returns (ok: bool)
      requires BooksOk(tm.wiring, tm.nodes, tm.edges, table, row.hash - 1, leaked, owed)
      requires RowOk(tm.wiring, row, row.hash)
      modifies this`leaked, tm`nodes, tm`edges
      ensures SameShape(old(tm.nodes), old(tm.edges), tm.nodes, tm.edges)
      ensures ok <==> row.state != Active || RoomForAll(tm.wiring, old(tm.nodes), old(tm.edges), row.resources)
      ensures row.state != Active ==> tm.nodes == old(tm.nodes) && tm.edges == old(tm.edges)
      ensures ok ==>
        leaked == old(leaked) && BooksOk(tm.wiring, tm.nodes, tm.edges, table + [row], row.hash, leaked, owed)
      ensures !ok ==> BooksOk(tm.wiring, tm.nodes, tm.edges, table, row.hash, leaked, owed)
      ensures !ok ==>
        exists k :: LeakedAt(tm.wiring, old(tm.nodes), old(tm.edges), old(leaked), leaked, row.resources, k)
      ensures old(Conserved(tm.wiring, tm.nodes, tm.edges, table)) ==>
        (Conserved(tm.wiring, tm.nodes, tm.edges, if ok then table + [row] else table) <==>
         row.state != Active || LosesNothing(tm.wiring, old(tm.nodes), old(tm.edges), row.resources))
    {
      ghost var nodes0, edges0, last := tm.nodes, tm.edges, row.hash - 1;
      ok := true;
      if row.state == Active {
        ghost var taken;
        ok, taken := ReserveResources(row.resources);
        BooksAfterReserve(nodes0, edges0, last, row, taken);
        if !ok {
          ConservedAfterLeak(nodes0, edges0, last, row, taken);
          leaked := leaked + row.resources[..taken];
          assert LeakedAt(tm.wiring, nodes0, edges0, old(leaked), leaked, row.resources, taken);
          return;
        }
      } else {
        BooksAdd(tm.wiring, nodes0, edges0, tm.nodes, tm.edges, table, last, leaked, owed, row, []);
      }
      if Conserved(tm.wiring, nodes0, edges0, table) {
        ConservedStays(tm.wiring, nodes0, edges0, table, tm.nodes, tm.edges, table + [row], leaked, owed);
      }
    }

    /** Removes a rule and gives back what it holds. It raises exactly if the rule is active and not all it holds is
        on the counters, which cannot be while nothing is owed; then the rule stays active with part of its
        resources gone. */
    method RemoveRule(hash: int, authorized: bool) returns (r: Removed)
      requires Valid()
      modifies this, tm`nodes, tm`edges
      ensures Valid() && ruleNumber == old(ruleNumber) && leaked == old(leaked)
      ensures r == Unknown <==> RowOf(old(table), hash) == None
      ensures r == Unauthorized <==> RowOf(old(table), hash).Some? && !authorized
      ensures r == Unknown || r == Unauthorized ==>
              owed == old(owed) && tm.nodes == old(tm.nodes) && tm.edges == old(tm.edges)
      ensures r == Gone ==> table == Without(old(table), hash) && owed == old(owed)
      ensures r != Gone ==> table == old(table) && installNextTime == old(installNextTime)
      ensures r == Stuck <==> authorized && RowOf(old(table), hash).Some?
                              && Owing(tm.wiring, old(tm.nodes), old(tm.edges), RowOf(old(table), hash).value)
      ensures old(owed) == [] ==> r != Stuck
      ensures old(Scheduled(table, installNextTime)) ==> Scheduled(table, installNextTime)
      ensures r == Gone && RowOf(old(table), hash).value.state == Inactive ==> Scheduled(table, installNextTime)
      ensures SameShape(old(tm.nodes), old(tm.edges), tm.nodes, tm.edges)
    {
      var found := RowOf(table, hash);
      RowOfFinds(table, hash);
      if found.None? {
        return Unknown;
      }
      if !authorized {
        return Unauthorized;
      }
      var row := found.value;
      ghost var i :| 0 <= i < |table| && table[i] == row && table[i].hash == hash;
      var ok := GiveBack(row, i);
      if !ok {
        return Stuck;
      }
      DeleteRow(row, i);
      r := Gone;
    }

    /** Takes the row out of the table and sets the timer anew if the row was waiting. */
    method DeleteRow(row: Record, ghost i: nat)
      requires i < |table| && table[i] == row && Without(table, row.hash) == table[..i] + table[i + 1..]
      requires BooksOk(tm.wiring, tm.nodes, tm.edges, Without(table, row.hash), ruleNumber, leaked, owed)
      modifies this`table, this`installNextTime
      ensures Valid() && table == Without(old(table), row.hash)
      ensures old(Scheduled(table, installNextTime)) || row.state == Inactive ==> Scheduled(table, installNextTime)
    {
      DeleteMembers(table, i);
      if row.state != Inactive && Scheduled(table, installNextTime) {
        ScheduledWithout(table, Without(table, row.hash), row, installNextTime);
      }
      table := Without(table, row.hash);
      if row.state == Inactive {
        BooksKnowStarts(tm.wiring, tm.nodes, tm.edges, table, ruleNumber, leaked, owed);
        RestartInstallTimer();
      }
    }

    /** Gives back what a row holds, so that the books will balance once the row is deleted. */
    method GiveBack(row: Record, ghost i: nat) returns (ok: bool)
      requires Valid() && i < |table| && table[i] == row
      modifies this`owed, tm`nodes, tm`edges
      ensures ok ==> owed == old(owed) && Without(table, row.hash) == table[..i] + table[i + 1..]
      ensures ok ==> BooksOk(tm.wiring, tm.nodes, tm.edges, Without(table, row.hash), ruleNumber, leaked, owed)
      ensures ok <==> !Owing(tm.wiring, old(tm.nodes), old(tm.edges), row)
      ensures !ok ==> Valid() && old(owed) != []
      ensures SameShape(old(tm.nodes), old(tm.edges), tm.nodes, tm.edges)
    {
      ghost var nodes0, edges0 := tm.nodes, tm.edges;
      assert row in table && RowOk(tm.wiring, row, ruleNumber);
      if row.state == Active {
        if owed == [] { ActiveAccounted(tm.wiring, nodes0, edges0, table, i, ruleNumber, leaked); }
        ghost var given;
        ok, given := UnreserveResources(row.resources);
        if !ok {
          BooksOwe(tm.wiring, nodes0, edges0, tm.nodes, tm.edges, table, ruleNumber, leaked, owed,
                   row.resources[..given]);
          owed := owed + row.resources[..given];
          return;
        }
        assert row.resources[..given] == row.resources;
        BooksDrop(tm.wiring, nodes0, edges0, tm.nodes, tm.edges, table, i, ruleNumber, leaked, owed, row.resources);
      } else {
        BooksDrop(tm.wiring, nodes0, edges0, nodes0, edges0, table, i, ruleNumber, leaked, owed, []);
        ok := true;
      }
    }

    /** The timer callback. It raises exactly if there is no room for all that the due rules need. Otherwise exactly
        the waiting rules whose time has come become active. A rule whose installation raises is active already,
        and owed the rest; the counters then still equal the sums over the active rules exactly if that rest takes
        nothing. Nor is the timer set anew then: it stays right exactly if the next waiting rule had to start at the
        same time as the first one. */
    method RuleInstallTimerCb(now: int) returns (ok: bool)
      requires Valid()
      modifies this, tm`nodes, tm`edges
      ensures Valid() && ruleNumber == old(ruleNumber) && leaked == old(leaked)
      ensures ok <==> RoomForAll(tm.wiring, old(tm.nodes), old(tm.edges), DueResources(old(table), now))
      ensures ok ==> table == Promoted(old(table), now) && owed == old(owed) && Scheduled(table, installNextTime)
      ensures ok ==> CaughtUp(old(table), table, now)
      ensures !ok ==> installNextTime == old(installNextTime)
      ensures old(Scheduled(table, installNextTime)) ==>
        (Scheduled(table, installNextTime) <==>
         TimerSurvives(tm.wiring, old(tm.nodes), old(tm.edges), InactiveByStart(old(table)), now))
      ensures SameShape(old(tm.nodes), old(tm.edges), tm.nodes, tm.edges)
      ensures !ok ==> exists k, t ::
        && StopsAt(tm.wiring, old(tm.nodes), old(tm.edges), InactiveByStart(old(table)), now, k, t)
        && StoppedAt(InactiveByStart(old(table)), old(table), table, old(owed), owed, k, t)
      ensures old(Conserved(tm.wiring, tm.nodes, tm.edges, table)) ==>
        (Conserved(tm.wiring, tm.nodes, tm.edges, table) <==>
         MissesNothing(tm.wiring, old(tm.nodes), old(tm.edges), InactiveByStart(old(table)), now))
    {
      var rows := InactiveByStart(table);
      QueryKeeps(table);
      WaitingFormed(rows);
      ghost var table0, nodes0, edges0, owed0 := table, tm.nodes, tm.edges, owed;
      BooksKnowStarts(tm.wiring, tm.nodes, tm.edges, table, ruleNumber, leaked, owed);
      ok := ActivateDue(rows, now);
      TimerAfter(nodes0, edges0, table0, owed0, now, ok);
      if ok {
        PromotedCaughtUp(table0, now);
        BooksKnowStarts(tm.wiring, tm.nodes, tm.edges, table, ruleNumber, leaked, owed);
        RestartInstallTimer();
      }
    }

    /** The callback's loop over the waiting rows. */
    method ActivateDue(rows: Table, now: int) returns (ok: bool)
      requires Valid() && rows == InactiveByStart(table) && SortedByStart(rows) && RowsFormed(tm.wiring, rows)
      modifies this`table, this`owed, tm`nodes, tm`edges
      ensures Valid()
      ensures ok <==> RoomForAll(tm.wiring, old(tm.nodes), old(tm.edges), DueResources(old(table), now))
      ensures ok ==> table == Promoted(old(table), now) && owed == old(owed)
      ensures SameShape(old(tm.nodes), old(tm.edges), tm.nodes, tm.edges)
      ensures !ok ==> exists k, t ::
        && StopsAt(tm.wiring, old(tm.nodes), old(tm.edges), rows, now, k, t)
        && StoppedAt(rows, old(table), table, old(owed), owed, k, t)
      ensures old(Conserved(tm.wiring, tm.nodes, tm.edges, table)) ==>
        (Conserved(tm.wiring, tm.nodes, tm.edges, table) <==>
         MissesNothing(tm.wiring, old(tm.nodes), old(tm.edges), rows, now))
    {
      ghost var table0, nodes0, edges0 := table, tm.nodes, tm.edges;
      assert HashesOf(rows[..0]) == {};
      assert Activated(table, {}) == table;
      var i := 0;
      while i < |rows| && StartOf(rows[i]) <= now
        invariant 0 <= i <= |rows| && Valid() && table == Activated(table0, HashesOf(rows[..i]))
        invariant owed == old(owed)
        invariant forall j :: 0 <= j < i ==> StartOf(rows[j]) <= now
        invariant ReservedTo(nodes0, edges0, rows, i)
      {
        ghost var taken;
        ok, taken := ActivateNext(rows, i, now, table0, nodes0, edges0);
        if !ok {
          assert StoppedAt(rows, table0, table, old(owed), owed, i, taken);
          CallbackFailed(nodes0, edges0, table0, old(owed), rows, now, i, taken);
          return;
        }
        i := i + 1;
      }
      CutSorted(rows, i, now);
      PromotedAll(table0, i, now);
      CallbackDone(nodes0, edges0, table0, rows, now, i);
      ok := true;
    }

    /** The loop's turn for row i, after the rows before it were activated. */
    method ActivateNext(rows: Table, i: nat, now: int, ghost table0: Table, ghost nodes0: Nodes, ghost edges0: Links)
      returns (ok: bool, ghost taken: nat)
      requires Valid() && UniqueHashes(table0) && rows == InactiveByStart(table0) && i < |rows|
      requires table == Activated(table0, HashesOf(rows[..i])) && ReservedTo(nodes0, edges0, rows, i)
      requires forall j :: 0 <= j <= i ==> StartOf(rows[j]) <= now
      modifies this`table, this`owed, tm`nodes, tm`edges
      ensures Valid() && table == Activated(table0, HashesOf(rows[..i + 1]))
      ensures ok ==> owed == old(owed) && ReservedTo(nodes0, edges0, rows, i + 1)
      ensures SameShape(nodes0, edges0, tm.nodes, tm.edges)
      ensures !ok ==> StopsAt(tm.wiring, nodes0, edges0, rows, now, i, taken)
                      && owed == old(owed) + rows[i].resources[taken..]
    {
      ghost var nodes1, edges1 := tm.nodes, tm.edges;
      ghost var k := NextWaiting(table0, i);
      ok, taken := ActivateRow(rows[i], k);
      ReservedNext(nodes0, edges0, nodes1, edges1, rows, now, i, taken);
    }

    /** One turn of the callback's loop: mark the row active, then reserve what it needs. */
    method ActivateRow(row: Record, ghost k: nat) returns (ok: bool, ghost taken: nat)
      requires Valid() && k < |table| && table[k] == row && row.state == Inactive
      modifies this`table, this`owed, tm`nodes, tm`edges
      ensures Valid() && table == WithState(old(table), row.hash, Active)
      ensures taken <= |row.resources| && (ok <==> taken == |row.resources|)
      ensures LongestFit(tm.wiring, old(tm.nodes), old(tm.edges), row.resources, taken)
      ensures Moved(old(tm.nodes), old(tm.edges), tm.nodes, tm.edges, SumOf(tm.wiring, row.resources[..taken]))
      ensures owed == old(owed) + row.resources[taken..]
    {
      ghost var nodes0, edges0, before := tm.nodes, tm.edges, table;
      assert row in table && RowOk(tm.wiring, row, ruleNumber);
      table := WithState(table, row.hash, Active);
      ok, taken := ReserveResources(row.resources);
      BooksActivate(tm.wiring, nodes0, edges0, tm.nodes, tm.edges, before, k, ruleNumber, leaked, owed, taken);
      owed := owed + row.resources[taken..];
    }

    /** The first i waiting rows fit and their resources are what the callback has reserved so far. */
    ghost predicate ReservedTo(nodes0: Nodes, edges0: Links, rows: Table, i: nat)
      requires i <= |rows|
      reads tm
    {
      && RoomForAll(tm.wiring, nodes0, edges0, ResourcesOf(rows[..i]))
      && Moved(nodes0, edges0, tm.nodes, tm.edges, SumOf(tm.wiring, ResourcesOf(rows[..i])))
    }

    /** What the callback's loop leaves of the timer. */
    lemma TimerAfter(nodes0: Nodes, edges0: Links, table0: Table, owed0: seq<Resource>, now: int, ok: bool)
      requires UniqueHashes(table0) && StartsKnown(table0) && RowsFormed(tm.wiring, InactiveByStart(table0))
      requires ok ==> RoomForAll(tm.wiring, nodes0, edges0, DueResources(table0, now))
      requires !ok ==> exists k, t ::
        && StopsAt(tm.wiring, nodes0, edges0, InactiveByStart(table0), now, k, t)
        && StoppedAt(InactiveByStart(table0), table0, table, owed0, owed, k, t)
      ensures ok ==> TimerSurvives(tm.wiring, nodes0, edges0, InactiveByStart(table0), now)
      ensures !ok && Scheduled(table0, installNextTime) ==>
        (Scheduled(table, installNextTime)
         <==> TimerSurvives(tm.wiring, nodes0, edges0, InactiveByStart(table0), now))
    {
      var rows := InactiveByStart(table0);
      if ok {
        if k: nat, t: nat :| StopsAt(tm.wiring, nodes0, edges0, rows, now, k, t) {
          StopsShort(tm.wiring, nodes0, edges0, rows, now, k, t);
        }
      } else {
        var k: nat, t: nat :| StopsAt(tm.wiring, nodes0, edges0, rows, now, k, t)
                              && StoppedAt(rows, table0, table, owed0, owed, k, t);
        SurvivesIff(tm.wiring, nodes0, edges0, rows, now, k, t);
        if Scheduled(table0, installNextTime) {
          ScheduledAfter(table0, k, installNextTime);
        }
      }
    }

    lemma CallbackFailed(nodes0: Nodes, edges0: Links, table0: Table, owed0: seq<Resource>, rows: Table, now: int,
                         i: nat, taken: nat)
      requires RowsFormed(tm.wiring, rows) && StopsAt(tm.wiring, nodes0, edges0, rows, now, i, taken)
      requires Balanced(tm.wiring, nodes0, edges0, table0, leaked, owed0)
      requires Balanced(tm.wiring, tm.nodes, tm.edges, table, leaked, owed0 + rows[i].resources[taken..])
      ensures !RoomForAll(tm.wiring, nodes0, edges0, ResourcesOf(rows[..DueCount(rows, now)]))
      ensures Conserved(tm.wiring, nodes0, edges0, table0) ==>
        (Conserved(tm.wiring, tm.nodes, tm.edges, table) <==> MissesNothing(tm.wiring, nodes0, edges0, rows, now))
    {
      MissesIff(tm.wiring, nodes0, edges0, rows, now, i, taken);
      StopsShort(tm.wiring, nodes0, edges0, rows, now, i, taken);
      if Conserved(tm.wiring, nodes0, edges0, table0) {
        assert rows[i] in rows;
        ConservedOwe(tm.wiring, nodes0, edges0, table0, tm.nodes, tm.edges, table, leaked, owed0,
                     rows[i].resources[taken..]);
      }
    }

    lemma CallbackDone(nodes0: Nodes, edges0: Links, table0: Table, rows: Table, now: int, i: nat)
      requires RowsFormed(tm.wiring, rows) && CutAt(rows, i, now) && ReservedTo(nodes0, edges0, rows, i)
      requires Balanced(tm.wiring, nodes0, edges0, table0, leaked, owed)
      requires Balanced(tm.wiring, tm.nodes, tm.edges, table, leaked, owed)
      ensures RoomForAll(tm.wiring, nodes0, edges0, ResourcesOf(rows[..DueCount(rows, now)]))
      ensures Conserved(tm.wiring, nodes0, edges0, table0) ==>
        (Conserved(tm.wiring, tm.nodes, tm.edges, table) <==> MissesNothing(tm.wiring, nodes0, edges0, rows, now))
    {
      DueCountIs(rows, i, now);
      FitsToEnd(tm.wiring, nodes0, edges0, rows, now);
      if Conserved(tm.wiring, nodes0, edges0, table0) {
        ConservedStays(tm.wiring, nodes0, edges0, table0, tm.nodes, tm.edges, table, leaked, owed);
      }
    }

    lemma WaitingFormed(rows: Table)
      requires Valid() && forall r :: r in rows ==> r in table
      ensures RowsFormed(tm.wiring, rows)
    {
      forall r, x | r in rows && x in r.resources ensures WellFormed(tm.wiring, x) {
        assert RowOk(tm.wiring, r, ruleNumber);
      }
    }

    lemma ReservedNext(nodes0: Nodes, edges0: Links, nodes1: Nodes, edges1: Links, rows: Table, now: int, i: nat,
                       taken: nat)
      requires i < |rows| && taken <= |rows[i].resources| && forall j :: 0 <= j <= i ==> StartOf(rows[j]) <= now
      requires RoomForAll(tm.wiring, nodes0, edges0, ResourcesOf(rows[..i]))
      requires Moved(nodes0, edges0, nodes1, edges1, SumOf(tm.wiring, ResourcesOf(rows[..i])))
      requires LongestFit(tm.wiring, nodes1, edges1, rows[i].resources, taken)
      requires Moved(nodes1, edges1, tm.nodes, tm.edges, SumOf(tm.wiring, rows[i].resources[..taken]))
      ensures taken == |rows[i].resources| ==> ReservedTo(nodes0, edges0, rows, i + 1)
      ensures taken < |rows[i].resources| ==> StopsAt(tm.wiring, nodes0, edges0, rows, now, i, taken)
    {
      var done, own := ResourcesOf(rows[..i]), rows[i].resources;
      RoomAfter(tm.wiring, nodes0, edges0, nodes1, edges1, done, own[..taken]);
      if taken < |own| {
        RoomAfter(tm.wiring, nodes0, edges0, nodes1, edges1, done, own[..taken + 1]);
        DueCountIs(rows, i + 1, now);
      } else {
        assert own[..taken] == own;
        ResourcesStep(rows, i);
        forall m ensures Sum(tm.wiring, done, m) + Sum(tm.wiring, own, m) == Sum(tm.wiring, done + own, m) {
          SumAppend(tm.wiring, done, own, m);
        }
        MovedBoth(nodes0, edges0, nodes1, edges1, tm.nodes, tm.edges, SumOf(tm.wiring, done),
                  SumOf(tm.wiring, own[..taken]), SumOf(tm.wiring, ResourcesOf(rows[..i + 1])));
      }
    }

    /** Any run of additions, removals and timer pops, with what came of each and the tables in between. However it
        goes, each operation does to the table what it should, no edge carries more than its weight and no VLAN is
        used twice in one place. If no callback raised, the timer is right and no removal got stuck. If no addition
        was refused either, every meter shows exactly what the active rules hold. */
    method Run(ops: seq<Op>) returns (log: seq<Event>, ghost tables: seq<Table>)
      requires Valid() && forall op, x :: op in ops && op.Add? && x in op.resources ==> WellFormed(tm.wiring, x)
      modifies this, tm`nodes, tm`edges
      ensures Valid() && Tidy(tm.nodes, tm.edges)
      ensures Trace(ops, log, tables) && tables[0] == old(table) && tables[|ops|] == table
      ensures SameShape(old(tm.nodes), old(tm.edges), tm.nodes, tm.edges)
      ensures Popped(false) !in log && old(Scheduled(table, installNextTime)) ==> Scheduled(table, installNextTime)
      ensures Popped(false) !in log && old(owed) == [] ==> Removing(Stuck) !in log
      ensures Popped(false) !in log && Adding(Failed) !in log && old(leaked) == [] && old(owed) == [] ==>
        Conserved(tm.wiring, tm.nodes, tm.edges, table)
    {
      log, tables := [], [table];
      for i := 0 to |ops|
        invariant Valid() && SameShape(old(tm.nodes), old(tm.edges), tm.nodes, tm.edges)
        invariant Trace(ops[..i], log, tables) && tables[0] == old(table) && tables[i] == table
        invariant Popped(false) !in log && old(owed) == [] ==> Removing(Stuck) !in log && owed == []
        invariant Popped(false) !in log && Adding(Failed) !in log && old(owed) == [] ==> leaked == old(leaked)
        invariant Popped(false) !in log && old(Scheduled(table, installNextTime)) ==> Scheduled(table, installNextTime)
      {
        assert ops[i] in ops;
        var e := Do(ops[i]);
        TraceMore(ops, log, tables, i, e, table);
        log := log + [e];
        tables := tables + [table];
      }
      assert ops[..|ops|] == ops;
      if leaked == [] && owed == [] {
        ConservedIff(tm.wiring, tm.nodes, tm.edges, table, [], []);
        assert Cancel(tm.wiring, [], []);
      }
    }

    /** One operation. */
    method Do(op: Op) returns (e: Event)
      requires Valid() && (op.Add? ==> forall x :: x in op.resources ==> WellFormed(tm.wiring, x))
      modifies this, tm`nodes, tm`edges
      ensures Valid() && After(op, e, old(table), table)
      ensures SameShape(old(tm.nodes), old(tm.edges), tm.nodes, tm.edges)
      ensures e != Popped(false) && old(owed) == [] ==> e != Removing(Stuck) && owed == []
      ensures e != Popped(false) && e != Adding(Failed) && old(owed) == [] ==> leaked == old(leaked)
      ensures e != Popped(false) && old(Scheduled(table, installNextTime)) ==> Scheduled(table, installNextTime)
    {
      match op
      case Add(start, stop, resources, now) =>
        var r := AddRule(start, stop, resources, now);
        e := Adding(r);
      case Remove(hash, authorized) =>
        var r := RemoveRule(hash, authorized);
        RemovedAfter(hash, old(table));
        e := Removing(r);
      case Pop(now) =>
        var ok := RuleInstallTimerCb(now);
        e := Popped(ok);
    }

    lemma BooksAfterReserve(nodes0: Nodes, edges0: Links, last: int, row: Record, taken: nat)
      requires BooksOk(tm.wiring, nodes0, edges0, table, last, leaked, owed) && Tidy(tm.nodes, tm.edges)
      requires row.hash == last + 1 && RowOk(tm.wiring, row, last + 1) && row.state == Active
      requires LongestFit(tm.wiring, nodes0, edges0, row.resources, taken)
      requires Moved(nodes0, edges0, tm.nodes, tm.edges, SumOf(tm.wiring, row.resources[..taken]))
      ensures taken < |row.resources| ==>
        BooksOk(tm.wiring, tm.nodes, tm.edges, table, last + 1, leaked + row.resources[..taken], owed)
      ensures taken == |row.resources| ==>
        BooksOk(tm.wiring, tm.nodes, tm.edges, table + [row], last + 1, leaked, owed)
    {
      var rs := row.resources[..taken];
      if taken < |row.resources| {
        BooksLeak(tm.wiring, nodes0, edges0, tm.nodes, tm.edges, table, last, leaked, owed, rs);
      } else {
        assert rs == row.resources;
        forall r | r in rs ensures Placed(tm.wiring, tm.nodes, tm.edges, r) {
          PlacedStays(tm.wiring, nodes0, edges0, tm.nodes, tm.edges, r);
        }
        BooksAdd(tm.wiring, nodes0, edges0, tm.nodes, tm.edges, table, last, leaked, owed, row, rs);
      }
    }

    lemma ConservedAfterLeak(nodes0: Nodes, edges0: Links, last: int, row: Record, taken: nat)
      requires BooksOk(tm.wiring, nodes0, edges0, table, last, leaked, owed)
      requires RowOk(tm.wiring, row, last + 1) && taken < |row.resources|
      requires LongestFit(tm.wiring, nodes0, edges0, row.resources, taken)
      requires BooksOk(tm.wiring, tm.nodes, tm.edges, table, last + 1, leaked + row.resources[..taken], owed)
      ensures Conserved(tm.wiring, nodes0, edges0, table) ==>
        (Conserved(tm.wiring, tm.nodes, tm.edges, table) <==> LosesNothing(tm.wiring, nodes0, edges0, row.resources))
    {
      LongestAll(tm.wiring, nodes0, edges0, row.resources, taken);
      if k: nat :| LongestFit(tm.wiring, nodes0, edges0, row.resources, k) && AllIdle(tm.wiring, row.resources[..k]) {
        LongestMost(tm.wiring, nodes0, edges0, row.resources, taken, k);
        LongestMost(tm.wiring, nodes0, edges0, row.resources, k, taken);
      }
      if Conserved(tm.wiring, nodes0, edges0, table) {
        ConservedLeak(tm.wiring, nodes0, edges0, tm.nodes, tm.edges, table, leaked, owed, row.resources[..taken]);
      }
    }
  }
}
