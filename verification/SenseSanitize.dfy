/** The clean-up of the SENSE database: deltas whose rules are not all installed are removed together with
    their hashes and rules, and so is every hash that belongs to no delta. */
module SenseSanitize {
  import opened Basics

  /** A row of the delta table, and a row of the hash table: a rule's hash and the delta it belongs to. */
  datatype Delta = Delta(id: int, raw: string)
  datatype HashRow = HashRow(hash: int, delta: int)

  function Rows(hashes: set<HashRow>, id: int): set<HashRow> {
    set r | r in hashes && r.delta == id
  }

  predicate AllInstalled(rows: set<HashRow>, rules: set<int>) {
    forall r :: r in rows ==> r.hash in rules
  }

  /** The delta has a hash, and all its hashes are rules that exist. */
  predicate Sound(hashes: set<HashRow>, rules: set<int>, d: Delta) {
    Rows(hashes, d.id) != {} && AllInstalled(Rows(hashes, d.id), rules)
  }

  predicate UniqueIds(deltas: set<Delta>) {
    forall d, e :: d in deltas && e in deltas && d.id == e.id ==> d == e
  }

  predicate UniqueHashes(hashes: set<HashRow>) {
    forall r, s :: r in hashes && s in hashes && r.hash == s.hash ==> r == s
  }

  function Hashes(rows: set<HashRow>): set<int> {
    set r | r in rows :: r.hash
  }

  // ----- What should be left -----

  function SoundDeltas(deltas: set<Delta>, hashes: set<HashRow>, rules: set<int>): set<Delta> {
    set d | d in deltas && Sound(hashes, rules, d)
  }

  predicate Belongs(r: HashRow, deltas: set<Delta>) {
    exists d :: d in deltas && d.id == r.delta
  }

  function Owned(hashes: set<HashRow>, deltas: set<Delta>): set<HashRow> {
    set r | r in hashes && Belongs(r, deltas)
  }

  // ----- The clean-up -----

  /** The list's own remove: the first occurrence goes. */
  method Remove<T(==)>(rows: seq<T>, x: T) returns (rest: seq<T>)
    requires Distinct(rows) && x in rows
    ensures Distinct(rest) && forall y :: y in rest <==> y in rows && y != x
  {
    var i := 0;
    while rows[i] != x
      invariant 0 <= i < |rows| && x !in rows[..i]
      decreases |rows| - i
    {
      i := i + 1;
    }
    rest := rows[..i] + rows[i + 1..];
    assert rows == rows[..i] + [x] + rows[i + 1..];
  }

  class SenseApi {
    var deltas: set<Delta>
    var hashes: set<HashRow>
    /** The hashes of the rules the rule manager has. */
    var rules: set<int>

    constructor (deltas: set<Delta>, hashes: set<HashRow>, rules: set<int>)
      ensures this.deltas == deltas && this.hashes == hashes && this.rules == rules
    {
      this.deltas, this.hashes, this.rules := deltas, hashes, rules;
    }

    /** Goes through a delta's rows until one has no rule; the rows looked at leave the list. */
    method CheckMatches(matches: seq<HashRow>, allHashes: seq<HashRow>) returns (problem: bool, left: seq<HashRow>)
      requires Distinct(matches) && Distinct(allHashes) && forall m :: m in matches ==> m in allHashes
      ensures problem <==> exists m :: m in matches && m.hash !in rules
      ensures Distinct(left) && forall r :: r in left ==> r in allHashes
      ensures forall r :: r in allHashes && r !in matches ==> r in left
      ensures !problem ==> forall m :: m in matches ==> m !in left
    {
      problem, left := false, allHashes;
      for i := 0 to |matches|
        invariant Distinct(left) && !problem
        invariant forall k :: 0 <= k < i ==> matches[k].hash in rules
        invariant forall r :: r in left <==> r in allHashes && r !in matches[..i]
      {
        left := Remove(left, matches[i]);
        if matches[i].hash !in rules {
          problem := true;
          break;
        }
      }
    }

    /** Removes the rows, and their rules where they exist. */
    method RemoveRows(rows: seq<HashRow>)
      modifies this`hashes, this`rules
      ensures hashes == old(hashes) - ToSet(rows) && rules == old(rules) - Hashes(ToSet(rows))
    {
      for i := 0 to |rows|
        invariant hashes == old(hashes) - ToSet(rows[..i]) && rules == old(rules) - Hashes(ToSet(rows[..i]))
      {
        HashesMore(rows, i);
        if rows[i].hash in rules {
          rules := rules - {rows[i].hash};
        }
        hashes := hashes - {rows[i]};
      }
      assert rows[..|rows|] == rows;
    }

    /** The clean-up keeps exactly the sound deltas, exactly their hashes, and every rule but those of the
        hashes it removes. */
    method SanitizeDb()
      requires UniqueIds(deltas) && UniqueHashes(hashes)
      modifies this
      ensures Tables(deltas, hashes, rules) == Cleaned(old(Tables(deltas, hashes, rules)))
    {
      ghost var was := Tables(deltas, hashes, rules);
      var allDeltas := Listing(deltas);
      var allHashes := Listing(hashes);
      ghost var gone: set<Delta> := {};
      for i := 0 to |allDeltas|
        invariant Reached(was, Tables(deltas, hashes, rules), ToSet(allDeltas[..i]), gone)
        invariant Distinct(allHashes) && Unclaimed(was, ToSet(allHashes), ToSet(allDeltas[..i]), gone)
      {
        var delta := allDeltas[i];
        ghost var done := ToSet(allDeltas[..i]);
        assert delta in allDeltas && ToSet(allDeltas[..i + 1]) == done + {delta};
        assert delta !in done;
        RowsAsBefore(was, Tables(deltas, hashes, rules), done, gone, delta);
        var matches := Listing(Rows(hashes, delta.id));
        if matches == [] {
          assert Rows(was.hashes, delta.id) == {};
          StepGone(was, Tables(deltas, hashes, rules), done, gone, delta, ToSet(allHashes), ToSet(allHashes));
          deltas := deltas - {delta};
          gone := gone + {delta};
          continue;
        }
        assert matches[0] in Rows(was.hashes, delta.id);
        ghost var before := ToSet(allHashes);
        var problem;
        problem, allHashes := CheckMatches(matches, allHashes);
        if problem {
          StepGone(was, Tables(deltas, hashes, rules), done, gone, delta, before, ToSet(allHashes));
          deltas := deltas - {delta};
          RemoveRows(matches);
          assert ToSet(matches) == Rows(was.hashes, delta.id);
          gone := gone + {delta};
        } else {
          StepKept(was, Tables(deltas, hashes, rules), done, gone, delta, before, ToSet(allHashes));
        }
      }
      assert allDeltas[..|allDeltas|] == allDeltas;
      assert ToSet(allDeltas) == was.deltas;
      Finished(was, Tables(deltas, hashes, rules), gone, ToSet(allHashes));
      RemoveRows(allHashes);
    }
  }

  lemma HashesMore(rows: seq<HashRow>, i: nat)
    requires i < |rows|
    ensures ToSet(rows[..i + 1]) == ToSet(rows[..i]) + {rows[i]}
    ensures Hashes(ToSet(rows[..i + 1])) == Hashes(ToSet(rows[..i])) + {rows[i].hash}
  {
    assert ToSet(rows[..i + 1]) == ToSet(rows[..i]) + {rows[i]};
  }

  // ----- Progress of the loop -----

  datatype Tables = Tables(deltas: set<Delta>, hashes: set<HashRow>, rules: set<int>)

  ghost predicate Unique(t: Tables) {
    UniqueIds(t.deltas) && UniqueHashes(t.hashes)
  }

  /** After the deltas `done`, those that are not sound are `gone`, with their rows and rules. */
  ghost predicate Reached(was: Tables, now: Tables, done: set<Delta>, gone: set<Delta>) {
    && Unique(was) && done <= was.deltas && gone == done - SoundDeltas(was.deltas, was.hashes, was.rules)
    && now.deltas == was.deltas - gone && now.hashes == was.hashes - Owned(was.hashes, gone)
    && now.rules == was.rules - Hashes(Owned(was.hashes, gone))
  }

  /** The list of hashes still has every row of no delta so far, and none of a delta that is kept. */
  ghost predicate Unclaimed(was: Tables, left: set<HashRow>, done: set<Delta>, gone: set<Delta>) {
    && left <= was.hashes && (forall r :: r in was.hashes && !Belongs(r, done) ==> r in left)
    && forall r :: r in left ==> !Belongs(r, done - gone)
  }

  /** The rows and rules of a delta not yet looked at are as they were. */
  lemma RowsAsBefore(was: Tables, now: Tables, done: set<Delta>, gone: set<Delta>, d: Delta)
    requires Reached(was, now, done, gone) && d in was.deltas && d !in done
    ensures Rows(now.hashes, d.id) == Rows(was.hashes, d.id)
    ensures forall r :: r in Rows(was.hashes, d.id) ==>
            (r.hash in now.rules <==> r.hash in was.rules) && !Belongs(r, done)
  {
    forall r | r in Rows(was.hashes, d.id) ensures !Belongs(r, gone) && !Belongs(r, done) {}
    forall r | r in Rows(was.hashes, d.id) ensures r.hash in now.rules <==> r.hash in was.rules {}
  }

  lemma OwnedMore(hashes: set<HashRow>, gone: set<Delta>, d: Delta)
    ensures Owned(hashes, gone + {d}) == Owned(hashes, gone) + Rows(hashes, d.id)
    ensures Hashes(Owned(hashes, gone + {d})) == Hashes(Owned(hashes, gone)) + Hashes(Rows(hashes, d.id))
  {
    forall r ensures r in Owned(hashes, gone + {d}) <==> r in Owned(hashes, gone) + Rows(hashes, d.id) {
      if r in Rows(hashes, d.id) { assert d in gone + {d}; }
      if r in Owned(hashes, gone) {
        var e :| e in gone && e.id == r.delta;
        assert e in gone + {d};
      }
    }
  }

  lemma StepGone(was: Tables, now: Tables, done: set<Delta>, gone: set<Delta>, d: Delta, before: set<HashRow>,
                 left: set<HashRow>)
    requires Reached(was, now, done, gone) && Unclaimed(was, before, done, gone) && d in was.deltas && d !in done
    requires !Sound(was.hashes, was.rules, d) && left <= before && before <= left + Rows(was.hashes, d.id)
    ensures var rows := Rows(was.hashes, d.id);
            Reached(was, Tables(now.deltas - {d}, now.hashes - rows, now.rules - Hashes(rows)), done + {d}, gone + {d})
    ensures Unclaimed(was, left, done + {d}, gone + {d})
  {
    OwnedMore(was.hashes, gone, d);
    OwnedMore(was.hashes, done, d);
    assert (done + {d}) - (gone + {d}) == done - gone;
    forall r | r in was.hashes && !Belongs(r, done + {d}) ensures r in left {
      assert r !in Owned(was.hashes, done + {d});
      assert r !in Owned(was.hashes, done);
    }
  }

  lemma StepKept(was: Tables, now: Tables, done: set<Delta>, gone: set<Delta>, d: Delta, before: set<HashRow>,
                 left: set<HashRow>)
    requires Reached(was, now, done, gone) && Unclaimed(was, before, done, gone) && d in was.deltas && d !in done
    requires Sound(was.hashes, was.rules, d) && left == before - Rows(was.hashes, d.id)
    ensures Reached(was, now, done + {d}, gone) && Unclaimed(was, left, done + {d}, gone)
  {
    OwnedMore(was.hashes, done, d);
    OwnedMore(was.hashes, done - gone, d);
    assert (done + {d}) - gone == (done - gone) + {d};
    forall r | r in was.hashes && !Belongs(r, done + {d}) ensures r in left {
      assert r !in Owned(was.hashes, done + {d});
      assert r !in Owned(was.hashes, done);
    }
    forall r | r in left ensures !Belongs(r, done + {d} - gone) {
      assert r !in Owned(was.hashes, done - gone);
      assert r !in Owned(was.hashes, (done - gone) + {d});
    }
  }

  lemma Finished(was: Tables, now: Tables, gone: set<Delta>, left: set<HashRow>)
    requires Reached(was, now, was.deltas, gone) && Unclaimed(was, left, was.deltas, gone)
    ensures now.deltas == SoundDeltas(was.deltas, was.hashes, was.rules)
    ensures now.hashes - left == Owned(was.hashes, now.deltas)
    ensures now.rules - Hashes(left) == was.rules - Hashes(was.hashes - Owned(was.hashes, now.deltas))
  {
  }

  /** What the clean-up leaves. */
  function Cleaned(was: Tables): Tables {
    var kept := SoundDeltas(was.deltas, was.hashes, was.rules);
    var rows := Owned(was.hashes, kept);
    Tables(kept, rows, was.rules - Hashes(was.hashes - rows))
  }

  lemma RowsKept(was: Tables, d: Delta)
    requires Unique(was) && d in Cleaned(was).deltas
    ensures Rows(Cleaned(was).hashes, d.id) == Rows(was.hashes, d.id)
    ensures forall r :: r in Rows(was.hashes, d.id) ==> r.hash in Cleaned(was).rules
  {
    forall r | r in Rows(was.hashes, d.id) ensures r in Cleaned(was).hashes && r.hash in Cleaned(was).rules {
      assert Belongs(r, Cleaned(was).deltas);
    }
  }

  /** Some row is the delta's, and the rule of every such row exists. */
  ghost predicate Intact(t: Tables, d: Delta) {
    && (exists r :: r in t.hashes && r.delta == d.id)
    && forall r :: r in t.hashes && r.delta == d.id ==> r.hash in t.rules
  }

  /** A rule of a hash that is gone. */
  ghost predicate Dropped(was: Tables, now: Tables, h: int) {
    exists r :: r in was.hashes && r.hash == h && r !in now.hashes
  }

  lemma SoundIntact(t: Tables, d: Delta)
    ensures Sound(t.hashes, t.rules, d) <==> Intact(t, d)
  {
    var rows := Rows(t.hashes, d.id);
    if r :| r in t.hashes && r.delta == d.id { assert r in rows; }
    forall r | r in t.hashes && r.delta == d.id ensures r in rows {}
    if rows != {} {
      var r :| r in rows;
      assert r in t.hashes && r.delta == d.id;
    }
  }

  /** Afterwards every delta has a hash, all its hashes are rules that exist, and every hash belongs to a delta. A delta
      is kept exactly if it had a hash and all its rules existed; no hash and no rule of a kept delta is gone; the rules
      that are gone are those of hashes that are; and cleaning up again changes nothing. */
  lemma Sanitized(was: Tables)
    requires Unique(was)
    ensures var now := Cleaned(was);
      && (forall d :: d in now.deltas ==> Sound(now.hashes, now.rules, d))
      && (forall r :: r in now.hashes ==> Belongs(r, now.deltas))
      && (forall d :: d in now.deltas <==> d in was.deltas && Intact(was, d))
      && (forall r :: r in was.hashes && Belongs(r, now.deltas) ==> r in now.hashes && r.hash in now.rules)
      && (forall h :: h in now.rules <==> h in was.rules && !Dropped(was, now, h))
      && Cleaned(now) == now
  {
    var now := Cleaned(was);
    forall d | d in now.deltas ensures Sound(now.hashes, now.rules, d) {
      RowsKept(was, d);
    }
    forall d ensures d in now.deltas <==> d in was.deltas && Intact(was, d) { SoundIntact(was, d); }
    forall r | r in was.hashes && Belongs(r, now.deltas) ensures r in now.hashes && r.hash in now.rules {
      var d :| d in now.deltas && d.id == r.delta;
      RowsKept(was, d);
      assert r in Rows(was.hashes, d.id);
    }
    forall h ensures h in now.rules <==> h in was.rules && !Dropped(was, now, h) {
      var lost := was.hashes - now.hashes;
      if r :| r in was.hashes && r.hash == h && r !in now.hashes { assert r in lost; }
      if h in Hashes(lost) {
        var r :| r in lost && r.hash == h;
        assert r in was.hashes && r !in now.hashes;
      }
    }
    assert SoundDeltas(now.deltas, now.hashes, now.rules) == now.deltas;
    assert Owned(now.hashes, now.deltas) == now.hashes;
    assert now.hashes - now.hashes == {};
  }
}
