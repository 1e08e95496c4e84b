/** The text form of a list of VLANs: runs of consecutive VLANs printed as ranges, and the parser that reads
    such texts back. */
module VlanRanges {
  import opened Basics

  const MAX_VLAN := 4095
  const MAXINT := 0x7fff_ffff_ffff_ffff

  // ----- Numbers as text -----

  predicate IsDigit(c: char) {
    '0' <= c <= '9'
  }

  function DigitOf(d: int): char
    requires 0 <= d < 10
  {
    ('0' as int + d) as char
  }

  function ValueOf(c: char): int {
    c as int - '0' as int
  }

  function Decimal(n: nat): (s: string)
    ensures |s| > 0 && forall i :: 0 <= i < |s| ==> IsDigit(s[i])
  {
    if n < 10 then [DigitOf(n)] else Decimal(n / 10) + [DigitOf(n % 10)]
  }

  function DigitsValue(s: string): int {
    if s == "" then 0 else 10 * DigitsValue(s[..|s| - 1]) + ValueOf(s[|s| - 1])
  }

  lemma {:induction false} DecimalValue(n: nat)
    ensures DigitsValue(Decimal(n)) == n
  {
    if n >= 10 {
      DecimalValue(n / 10);
      var s := Decimal(n);
      assert s[..|s| - 1] == Decimal(n / 10);
    } else {
      assert Decimal(n)[..0] == "";
    }
  }

  predicate IsBlank(c: char) {
    c == ' ' || '\t' <= c <= '\r'
  }

  function SkipBlanks(s: string): string {
    if s != "" && IsBlank(s[0]) then SkipBlanks(s[1..]) else s
  }

  function DropBlanks(s: string): string {
    if s != "" && IsBlank(s[|s| - 1]) then DropBlanks(s[..|s| - 1]) else s
  }

  function Trim(text: string): string {
    DropBlanks(SkipBlanks(text))
  }

  predicate HasSign(s: string) {
    s != "" && (s[0] == '+' || s[0] == '-')
  }

  predicate AllDigits(s: string) {
    forall c :: c in s ==> IsDigit(c)
  }

  function Unsigned(digits: string): Option<int> {
    if digits == "" || !AllDigits(digits) then None else Some(DigitsValue(digits))
  }

  function Negated(n: Option<int>): Option<int> {
    match n
    case None => None
    case Some(v) => Some(-v)
  }

  /** What Python 2 reads as an integer: digits, an optional sign, and blanks around both. */
  function IntOf(text: string): Option<int> {
    var s := Trim(text);
    if !HasSign(s) then Unsigned(s)
    else if s[0] == '-' then Negated(Unsigned(SkipBlanks(s[1..]))) else Unsigned(SkipBlanks(s[1..]))
  }

  lemma TrimDigits(s: string)
    requires s != "" && AllDigits(s)
    ensures Trim(s) == s && !HasSign(s)
  {
    assert s[0] in s && s[|s| - 1] in s;
  }

  lemma IntOfDecimal(n: nat)
    ensures IntOf(Decimal(n)) == Some(n)
  {
    DecimalValue(n);
    TrimDigits(Decimal(n));
  }

  lemma BlankChars(c: char)
    ensures IsBlank(c) <==> c as int in {9, 10, 11, 12, 13, 32}
  {
  }

  lemma {:induction false} SkipBefore(s: string, c: char)
    requires IsBlank(c)
    ensures SkipBlanks(s + [c]) == if SkipBlanks(s) == "" then "" else SkipBlanks(s) + [c]
  {
    var t := s + [c];
    if s == "" {
      assert t[1..] == "";
    } else {
      assert t[1..] == s[1..] + [c];
      if IsBlank(s[0]) { SkipBefore(s[1..], c); }
    }
  }

  /** Blanks before and behind a number do not matter. */
  lemma BlanksIgnored(s: string, c: char)
    requires IsBlank(c)
    ensures IntOf([c] + s) == IntOf(s) && IntOf(s + [c]) == IntOf(s)
  {
    assert ([c] + s)[1..] == s;
    assert Trim([c] + s) == Trim(s);
    SkipBefore(s, c);
    var t := SkipBlanks(s) + [c];
    assert t[..|t| - 1] == SkipBlanks(s);
    assert Trim(s + [c]) == Trim(s);
  }

  /** A text without blanks at its ends and without a sign is a number exactly if it consists of digits. */
  lemma DigitsOnly(s: string)
    requires s != "" && !IsBlank(s[0]) && !IsBlank(s[|s| - 1]) && s[0] != '+' && s[0] != '-'
    ensures IntOf(s) == if AllDigits(s) then Some(DigitsValue(s)) else None
  {
    assert Trim(s) == s;
  }

  lemma SignedDigits(s: string, sign: char)
    requires s != "" && AllDigits(s) && (sign == '+' || sign == '-')
    ensures IntOf([sign] + s) == Some(if sign == '-' then -DigitsValue(s) else DigitsValue(s))
  {
    var signed := [sign] + s;
    TrimDigits(s);
    assert s[0] in s && s[|s| - 1] in s;
    assert signed[1..] == s && signed[|s|] == s[|s| - 1];
    assert Trim(signed) == signed && SkipBlanks(s) == s;
  }

  lemma NothingIsNoNumber()
    ensures IntOf("") == None
  {
  }

  // ----- Splitting -----

  /** The pieces between separators; a text without any is one piece. */
  function Split(s: string, c: char): (pieces: seq<string>)
    ensures |pieces| > 0
  {
    if s == "" then [""] else
      var rest := Split(s[1..], c);
      if s[0] == c then [""] + rest else [[s[0]] + rest[0]] + rest[1..]
  }

  predicate Free(s: string, c: char) {
    forall i :: 0 <= i < |s| ==> s[i] != c
  }

  lemma {:induction false} SplitFree(s: string, c: char)
    requires Free(s, c)
    ensures Split(s, c) == [s]
  {
    if s != "" {
      SplitFree(s[1..], c);
      assert s == [s[0]] + s[1..];
    }
  }

  lemma {:induction false} SplitAt(a: string, c: char, b: string)
    requires Free(a, c)
    ensures Split(a + [c] + b, c) == [a] + Split(b, c)
  {
    var s := a + [c] + b;
    if a == "" {
      assert s[1..] == b;
    } else {
      assert s[1..] == a[1..] + [c] + b;
      SplitAt(a[1..], c, b);
      assert a == [a[0]] + a[1..];
    }
  }

  // ----- Ranges -----

  datatype Range = Range(low: int, high: int)

  function Count(low: int, high: int): (s: seq<int>)
    ensures |s| == (if low <= high then high - low + 1 else 0) && forall i :: 0 <= i < |s| ==> s[i] == low + i
    decreases high - low
  {
    if low > high then [] else [low] + Count(low + 1, high)
  }

  /** The VLANs that the ranges stand for. */
  function Numbers(rs: seq<Range>): seq<int> {
    if rs == [] then [] else Numbers(rs[..|rs| - 1]) + Count(rs[|rs| - 1].low, rs[|rs| - 1].high)
  }

  predicate InBounds(rs: seq<Range>) {
    forall i :: 0 <= i < |rs| ==> 0 <= rs[i].low <= rs[i].high <= MAX_VLAN
  }

  /** Ascending, with a gap between any two: no range could be longer, and none overlap. */
  predicate Maximal(rs: seq<Range>) {
    forall i :: 0 <= i < |rs| - 1 ==> rs[i].high + 1 < rs[i + 1].low
  }

  predicate Ascending(xs: seq<int>) {
    forall i, j :: 0 <= i < j < |xs| ==> xs[i] < xs[j]
  }

  function RangeText(r: Range): string
    requires 0 <= r.low <= r.high
  {
    if r.low == r.high then Decimal(r.low) else Decimal(r.low) + "-" + Decimal(r.high)
  }

  function Text(rs: seq<Range>): string
    requires InBounds(rs)
  {
    if rs == [] then "" else
      Text(rs[..|rs| - 1]) + (if |rs| > 1 then "," else "") + RangeText(rs[|rs| - 1])
  }

  // ----- Parsing -----

  /** Not a number; a number too big for a plain integer; not a VLAN; or a range the wrong way round. */
  datatype Error = NotANumber | WrongType | OutOfRange | OutOfOrder

  datatype Parsed = Vlans(vlans: seq<int>) | Failed(error: Error)

  function ParseOne(text: string): Parsed {
    match IntOf(text)
    case None => Failed(NotANumber)
    case Some(n) => if n > MAXINT then Failed(WrongType) else if n < 0 || n > MAX_VLAN then Failed(OutOfRange)
      else Vlans([n])
  }

  function ParseTwo(first: string, second: string): Parsed {
    match (IntOf(first), IntOf(second))
    case (Some(low), Some(high)) =>
      if low > MAXINT || high > MAXINT then Failed(WrongType)
      else if low < 0 || low > MAX_VLAN || high < 0 || high > MAX_VLAN then Failed(OutOfRange)
      else if low > high then Failed(OutOfOrder)
      else Vlans(Count(low, high))
    case _ => Failed(NotANumber)
  }

  /** One piece between commas. A piece with more than one dash is passed over in silence. */
  function ParsePiece(piece: string): Parsed {
    var parts := Split(piece, '-');
    if |parts| == 1 then ParseOne(parts[0])
    else if |parts| == 2 then ParseTwo(parts[0], parts[1])
    else Vlans([])
  }

  function ParsePieces(pieces: seq<string>): Parsed {
    if pieces == [] then Vlans([]) else
      match ParsePieces(pieces[..|pieces| - 1])
      case Failed(e) => Failed(e)
      case Vlans(before) =>
        match ParsePiece(pieces[|pieces| - 1])
        case Failed(e) => Failed(e)
        case Vlans(more) => Vlans(before + more)
  }

  function Parse(text: string): Parsed {
    ParsePieces(Split(text, ','))
  }

  /** The text is a number between 0 and 4095. */
  predicate IsVlan(text: string) {
    IntOf(text).Some? && 0 <= IntOf(text).value <= 4095
  }

  /** Where there is no dash, there is no negative number. */
  lemma NotNegative(text: string)
    requires Free(text, '-') && IntOf(text).Some?
    ensures IntOf(text).value >= 0
  {
    SkipFree(text, '-');
    DropFree(SkipBlanks(text), '-');
    var s := Trim(text);
    assert s != "" ==> s[0] != '-';
    DigitsPositive(if HasSign(s) then SkipBlanks(s[1..]) else s);
  }

  lemma {:induction false} SkipFree(s: string, c: char)
    requires Free(s, c)
    ensures Free(SkipBlanks(s), c)
  {
    if s != "" && IsBlank(s[0]) { SkipFree(s[1..], c); }
  }

  lemma {:induction false} DropFree(s: string, c: char)
    requires Free(s, c)
    ensures Free(DropBlanks(s), c)
    decreases |s|
  {
    if s != "" && IsBlank(s[|s| - 1]) { DropFree(s[..|s| - 1], c); }
  }

  lemma {:induction false} DigitsPositive(s: string)
    requires AllDigits(s)
    ensures DigitsValue(s) >= 0
    decreases |s|
  {
    if s != "" {
      assert s[|s| - 1] in s;
      DigitsPositive(s[..|s| - 1]);
    }
  }

  lemma {:induction false} PartsFree(s: string, c: char)
    ensures forall part :: part in Split(s, c) ==> Free(part, c)
  {
    if s != "" {
      PartsFree(s[1..], c);
      var rest := Split(s[1..], c);
      assert rest[0] in rest;
    }
  }

  /** What becomes of one piece: a VLAN or a range of them is read, and a piece with more dashes counts for nothing. */
  lemma PieceVerdict(piece: string)
    ensures var parts, r := Split(piece, '-'), ParsePiece(piece);
      && (|parts| == 1 && IsVlan(parts[0]) ==> r == Vlans([IntOf(parts[0]).value]))
      && (|parts| == 2 && IsVlan(parts[0]) && IsVlan(parts[1]) ==>
            var low, high := IntOf(parts[0]).value, IntOf(parts[1]).value;
            r == if low <= high then Vlans(Count(low, high)) else Failed(OutOfOrder))
      && (|parts| > 2 ==> r == Vlans([]))
  {
  }

  predicate SomeNot(parts: seq<string>) {
    exists p :: p in parts && IntOf(p) == None
  }

  predicate SomeBeyond(parts: seq<string>, limit: int) {
    exists p :: p in parts && IntOf(p).Some? && IntOf(p).value > limit
  }

  /** Any other piece is refused, and what is wrong with it is told apart. */
  lemma PieceErrors(piece: string)
    requires |Split(piece, '-')| <= 2
    ensures var parts, r := Split(piece, '-'), ParsePiece(piece);
      && (SomeNot(parts) ==> r == Failed(NotANumber))
      && (!SomeNot(parts) && SomeBeyond(parts, 0x7fff_ffff_ffff_ffff) ==> r == Failed(WrongType))
      && (!SomeNot(parts) && !SomeBeyond(parts, 0x7fff_ffff_ffff_ffff) && SomeBeyond(parts, 4095) ==>
            r == Failed(OutOfRange))
      && (!SomeNot(parts) && !SomeBeyond(parts, 4095) ==> forall p :: p in parts ==> IsVlan(p))
  {
    var parts := Split(piece, '-');
    PartsFree(piece, '-');
    forall p | p in parts && IntOf(p).Some? ensures IntOf(p).value >= 0 { NotNegative(p); }
    if |parts| == 2 { OnlyTwo(parts); } else { OnlyOne(parts); }
  }

  lemma OnlyOne(parts: seq<string>)
    requires |parts| == 1
    ensures SomeNot(parts) <==> IntOf(parts[0]) == None
    ensures forall n :: SomeBeyond(parts, n) <==> IntOf(parts[0]).Some? && IntOf(parts[0]).value > n
  {
    assert parts[0] in parts;
  }

  lemma OnlyTwo(parts: seq<string>)
    requires |parts| == 2
    ensures SomeNot(parts) <==> IntOf(parts[0]) == None || IntOf(parts[1]) == None
    ensures forall n :: SomeBeyond(parts, n) <==>
      || (IntOf(parts[0]).Some? && IntOf(parts[0]).value > n)
      || (IntOf(parts[1]).Some? && IntOf(parts[1]).value > n)
  {
    assert parts[0] in parts && parts[1] in parts;
  }

  /** The text is refused exactly if some piece is, with the error of the first such piece. */
  lemma {:induction false} PiecesVerdict(pieces: seq<string>)
    ensures ParsePieces(pieces).Vlans? <==> forall i :: 0 <= i < |pieces| ==> ParsePiece(pieces[i]).Vlans?
    ensures ParsePieces(pieces).Failed? ==> exists i :: FirstFailure(pieces, i)
    decreases |pieces|
  {
    if pieces != [] {
      var front := pieces[..|pieces| - 1];
      PiecesVerdict(front);
      assert forall j :: 0 <= j < |front| ==> pieces[j] == front[j];
      if i :| FirstFailure(front, i) {
        assert FirstFailure(pieces, i);
      } else if ParsePieces(pieces).Failed? {
        assert FirstFailure(pieces, |front|);
      }
    }
  }

  predicate FirstFailure(pieces: seq<string>, i: int) {
    && 0 <= i < |pieces| && ParsePiece(pieces[i]).Failed? && ParsePiece(pieces[i]) == ParsePieces(pieces)
    && forall j :: 0 <= j < i ==> ParsePiece(pieces[j]).Vlans?
  }

  /** Otherwise its pieces' VLANs are listed, all of them between 0 and 4095. */
  lemma {:induction false} OnlyVlans(pieces: seq<string>, v: int)
    requires ParsePieces(pieces).Vlans? && v in ParsePieces(pieces).vlans
    ensures 0 <= v <= 4095
    ensures exists i :: 0 <= i < |pieces| && ParsePiece(pieces[i]).Vlans? && v in ParsePiece(pieces[i]).vlans
    decreases |pieces|
  {
    var front := pieces[..|pieces| - 1];
    if v in ParsePieces(front).vlans {
      OnlyVlans(front, v);
      var i :| 0 <= i < |front| && ParsePiece(front[i]).Vlans? && v in ParsePiece(front[i]).vlans;
      assert pieces[i] == front[i];
    } else {
      assert v in ParsePiece(pieces[|pieces| - 1]).vlans;
    }
  }

  method ParseAvailableVlans(text: string) returns (r: Parsed)
    ensures r == Parse(text)
  {
    var validVlans: seq<int> := [];
    var ranges := Split(text, ',');
    for i := 0 to |ranges|
      invariant ParsePieces(ranges[..i]) == Vlans(validVlans)
    {
      assert ranges[..i + 1][..i] == ranges[..i];
      var parts := Split(ranges[i], '-');
      var piece: seq<int> := [];
      if |parts| == 1 {
        var n := IntOf(parts[0]);
        if n == None {
          PieceFails(ranges, i, NotANumber);
          return Failed(NotANumber);
        }
        if n.value > MAXINT {
          PieceFails(ranges, i, WrongType);
          return Failed(WrongType);
        } else if n.value < 0 || n.value > MAX_VLAN {
          PieceFails(ranges, i, OutOfRange);
          return Failed(OutOfRange);
        }
        piece := [n.value];
      } else if |parts| == 2 {
        var low, high := IntOf(parts[0]), IntOf(parts[1]);
        if low == None || high == None {
          PieceFails(ranges, i, NotANumber);
          return Failed(NotANumber);
        }
        if low.value > MAXINT || high.value > MAXINT {
          PieceFails(ranges, i, WrongType);
          return Failed(WrongType);
        } else if low.value < 0 || low.value > MAX_VLAN || high.value < 0 || high.value > MAX_VLAN {
          PieceFails(ranges, i, OutOfRange);
          return Failed(OutOfRange);
        } else if low.value > high.value {
          PieceFails(ranges, i, OutOfOrder);
          return Failed(OutOfOrder);
        }
        piece := CountUp(low.value, high.value);
      }
      validVlans := validVlans + piece;
    }
    assert ranges[..|ranges|] == ranges;
    r := Vlans(validVlans);
  }

  method CountUp(low: int, high: int) returns (s: seq<int>)
    requires low <= high
    ensures s == Count(low, high)
  {
    s := [];
    for x := low to high + 1
      invariant s == Count(low, high)[..x - low]
    {
      s := s + [x];
    }
  }

  /** Once a piece fails, the whole text fails that way. */
  lemma {:induction false} FailsOn(pieces: seq<string>, n: nat, e: Error)
    requires n <= |pieces| && ParsePieces(pieces[..n]) == Failed(e)
    ensures ParsePieces(pieces) == Failed(e)
    decreases |pieces| - n
  {
    if n == |pieces| {
      assert pieces[..n] == pieces;
    } else {
      assert pieces[..n + 1][..n] == pieces[..n];
      FailsOn(pieces, n + 1, e);
    }
  }

  lemma PieceFails(pieces: seq<string>, i: nat, e: Error)
    requires i < |pieces| && ParsePieces(pieces[..i]).Vlans? && ParsePiece(pieces[i]) == Failed(e)
    ensures ParsePieces(pieces) == Failed(e)
  {
    assert pieces[..i + 1][..i] == pieces[..i];
    FailsOn(pieces, i + 1, e);
  }

  // ----- Printing -----

  lemma AscendingMore(xs: seq<int>, x: int)
    requires Ascending(xs) && forall y :: y in xs ==> y < x
    ensures Ascending(xs + [x])
  {
    var more := xs + [x];
    forall i, j | 0 <= i < j < |more| ensures more[i] < more[j] {
      assert more[i] in xs;
    }
  }

  method SortedList(s: set<int>) returns (xs: seq<int>)
    ensures Ascending(xs) && forall x :: x in xs <==> x in s
  {
    xs := [];
    var todo := s;
    while |todo| > 0
      invariant Ascending(xs) && todo <= s
      invariant forall x :: x in s <==> x in xs || x in todo
      invariant forall x, y :: x in xs && y in todo ==> x < y
      decreases |todo|
    {
      var least := Least(todo);
      AscendingMore(xs, least);
      xs := xs + [least];
      todo := todo - {least};
    }
  }

  method Any<T>(s: set<T>) returns (x: T)
    requires |s| > 0
    ensures x in s
  {
    x :| x in s;
  }

  method Least(s: set<int>) returns (least: int)
    requires |s| > 0
    ensures least in s && forall x :: x in s ==> least <= x
  {
    least := Any(s);
    var todo := s - {least};
    while |todo| > 0
      invariant todo <= s && least in s && forall x :: x in s ==> x in todo || least <= x
      decreases |todo|
    {
      var x := Any(todo);
      if x < least { least := x; }
      todo := todo - {x};
    }
  }

  /** The ranges found so far, and where the printer is in the list. */
  ghost predicate Covers(rs: seq<Range>, xs: seq<int>, index: nat) {
    && index <= |xs| && InBounds(rs) && Maximal(rs) && Numbers(rs) == xs[..index]
    && (rs == [] <==> index == 0)
    && (index > 0 ==> xs[index - 1] == rs[|rs| - 1].high)
    && (0 < index < |xs| ==> rs[|rs| - 1].high + 1 < xs[index])
  }

  /** One more run of the list makes one more range. */
  lemma CoversMore(rs: seq<Range>, xs: seq<int>, index: nat, next: nat)
    requires Ascending(xs) && Covers(rs, xs, index) && index < next <= |xs|
    requires forall i :: index <= i < next ==> xs[i] == xs[index] + (i - index)
    requires next < |xs| ==> xs[next] != xs[next - 1] + 1
    requires 0 <= xs[index] && xs[next - 1] <= MAX_VLAN
    ensures Covers(rs + [Range(xs[index], xs[next - 1])], xs, next)
  {
    var r := Range(xs[index], xs[next - 1]);
    var more := rs + [r];
    assert more[..|more| - 1] == rs;
    assert Count(r.low, r.high) == xs[index..next];
    assert xs[..next] == xs[..index] + xs[index..next];
  }

  /** Text of the list so far, with the comma that comes before the next range. */
  function TextSoFar(rs: seq<Range>, more: bool): string
    requires InBounds(rs)
  {
    Text(rs) + if rs != [] && more then "," else ""
  }

  lemma TextGrows(rs: seq<Range>, r: Range, more: bool)
    requires InBounds(rs) && 0 <= r.low <= r.high <= MAX_VLAN
    ensures TextSoFar(rs + [r], more) == TextSoFar(rs, true) + RangeText(r) + if more then "," else ""
  {
    var all := rs + [r];
    assert all[..|all| - 1] == rs;
  }

  /** The printer's inner loop: where the run that begins here ends. */
  method RunFrom(sorted: seq<int>, start: nat) returns (index: nat, current: int)
    requires start < |sorted|
    ensures start < index <= |sorted| && current == sorted[index - 1]
    ensures forall i :: start <= i < index ==> sorted[i] == sorted[start] + (i - start)
    ensures index < |sorted| ==> sorted[index] != current + 1
  {
    index, current := start + 1, sorted[start];
    while index < |sorted| && current + 1 == sorted[index]
      invariant start < index <= |sorted| && current == sorted[index - 1]
      invariant forall i :: start <= i < index ==> sorted[i] == sorted[start] + (i - start)
    {
      current := current + 1;
      index := index + 1;
    }
  }

  /** The text is that of the longest runs of the list. */
  ghost predicate Prints(text: string, xs: seq<int>, rs: seq<Range>) {
    InBounds(rs) && Maximal(rs) && Numbers(rs) == xs && text == Text(rs)
  }

  /** The printer's loop over a sorted list. */
  method PrintRanges(sorted: seq<int>) returns (text: string)
    requires Ascending(sorted) && forall x :: x in sorted ==> 0 <= x <= MAX_VLAN
    ensures exists rs :: Prints(text, sorted, rs)
  {
    var index := 0;
    text := "";
    ghost var rs: seq<Range> := [];
    while index < |sorted|
      invariant Covers(rs, sorted, index) && text == TextSoFar(rs, index < |sorted|)
    {
      ghost var start := index;
      var begin, current := sorted[index], sorted[index];
      index, current := RunFrom(sorted, index);
      assert begin in sorted && current in sorted;
      CoversMore(rs, sorted, start, index);
      TextGrows(rs, Range(begin, current), index < |sorted|);
      if begin == current {
        text := text + Decimal(current);
      } else {
        text := text + (Decimal(begin) + "-" + Decimal(current));
      }
      if index < |sorted| {
        text := text + ",";
      }
      rs := rs + [Range(begin, current)];
    }
    assert sorted[..|sorted|] == sorted;
    assert Prints(text, sorted, rs);
  }

  // ----- Round trip -----

  /** A printed range reads back as its numbers. */
  lemma PieceBack(r: Range)
    requires 0 <= r.low <= r.high <= MAX_VLAN
    ensures ParsePiece(RangeText(r)) == Vlans(Count(r.low, r.high)) && Free(RangeText(r), ',')
  {
    if r.low < r.high {
      RangeSplits(r);
      TwoBack(r.low, r.high);
    } else {
      SplitFree(Decimal(r.low), '-');
      OneBack(r.low);
    }
  }

  lemma OneBack(n: nat)
    requires n <= MAX_VLAN
    ensures ParseOne(Decimal(n)) == Vlans(Count(n, n))
  {
    IntOfDecimal(n);
    assert Count(n, n) == [n];
  }

  lemma TwoBack(low: nat, high: nat)
    requires low < high <= MAX_VLAN
    ensures ParseTwo(Decimal(low), Decimal(high)) == Vlans(Count(low, high))
  {
    IntOfDecimal(low);
    IntOfDecimal(high);
  }

  lemma RangeSplits(r: Range)
    requires 0 <= r.low < r.high
    ensures Split(RangeText(r), '-') == [Decimal(r.low), Decimal(r.high)] && Free(RangeText(r), ',')
  {
    SplitFree(Decimal(r.high), '-');
    SplitAt(Decimal(r.low), '-', Decimal(r.high));
    assert RangeText(r) == Decimal(r.low) + ['-'] + Decimal(r.high);
  }

  /** The texts of the ranges, one by one. */
  function Pieces(rs: seq<Range>): seq<string>
    requires InBounds(rs)
  {
    if rs == [] then [] else Pieces(rs[..|rs| - 1]) + [RangeText(rs[|rs| - 1])]
  }

  lemma {:induction false} PiecesBack(rs: seq<Range>)
    requires InBounds(rs)
    ensures ParsePieces(Pieces(rs)) == Vlans(Numbers(rs))
    decreases |rs|
  {
    if rs != [] {
      PiecesBack(rs[..|rs| - 1]);
      PieceBack(rs[|rs| - 1]);
      var pieces := Pieces(rs);
      assert pieces[..|pieces| - 1] == Pieces(rs[..|rs| - 1]);
    }
  }

  lemma {:induction false} SplitEnd(s: string, c: char, last: string)
    requires Free(last, c)
    ensures Split(s + [c] + last, c) == Split(s, c) + [last]
  {
    var t := s + [c] + last;
    if s == "" {
      assert t[1..] == last;
      SplitFree(last, c);
    } else {
      assert t[1..] == s[1..] + [c] + last;
      SplitEnd(s[1..], c, last);
    }
  }

  lemma {:induction false} SplitText(rs: seq<Range>)
    requires InBounds(rs) && rs != []
    ensures Split(Text(rs), ',') == Pieces(rs)
    decreases |rs|
  {
    var front, last := rs[..|rs| - 1], rs[|rs| - 1];
    PieceBack(last);
    if front == [] {
      assert Text(rs) == RangeText(last);
      SplitFree(RangeText(last), ',');
    } else {
      SplitText(front);
      SplitEnd(Text(front), ',', RangeText(last));
      assert Text(rs) == Text(front) + [','] + RangeText(last);
    }
  }

  /** Reading what was printed gives the same VLANs, if and only if there were any: the empty text is not a
      number. */
  lemma RoundTripIff(rs: seq<Range>)
    requires InBounds(rs)
    ensures Parse(Text(rs)) == Vlans(Numbers(rs)) <==> rs != []
  {
    if rs == [] {
      assert Split("", ',') == [""] && Split("", '-') == [""];
      assert ParsePiece("") == Failed(NotANumber);
      assert [""][..0] == [];
    } else {
      SplitText(rs);
      PiecesBack(rs);
    }
  }

  // ----- One text only -----

  lemma {:induction false} NumbersEnd(rs: seq<Range>)
    requires InBounds(rs) && Maximal(rs) && rs != []
    ensures Numbers(rs) != [] && Numbers(rs)[|Numbers(rs)| - 1] == rs[|rs| - 1].high
    ensures |rs| > 1 ==> Numbers(rs[..|rs| - 1]) != []
    decreases |rs|
  {
    if |rs| > 1 { NumbersEnd(rs[..|rs| - 1]); }
  }

  lemma FrontNumbers(rs: seq<Range>)
    requires InBounds(rs) && rs != []
    ensures |Numbers(rs)| > rs[|rs| - 1].high - rs[|rs| - 1].low
    ensures Numbers(rs[..|rs| - 1]) == Numbers(rs)[..|Numbers(rs)| - 1 - (rs[|rs| - 1].high - rs[|rs| - 1].low)]
  {
  }

  /** The ranges of a list are determined by it, so equal lists are printed alike. */
  lemma {:induction false} OneText(rs: seq<Range>, rs': seq<Range>)
    requires InBounds(rs) && Maximal(rs) && InBounds(rs') && Maximal(rs') && Numbers(rs) == Numbers(rs')
    ensures rs == rs'
    decreases |rs|
  {
    if rs == [] || rs' == [] {
      if rs != [] { NumbersEnd(rs); }
      if rs' != [] { NumbersEnd(rs'); }
    } else {
      SameLast(rs, rs');
      OneText(rs[..|rs| - 1], rs'[..|rs'| - 1]);
      assert rs == rs[..|rs| - 1] + [rs[|rs| - 1]] && rs' == rs'[..|rs'| - 1] + [rs'[|rs'| - 1]];
    }
  }

  /** Equal lists end in the same range, and are equal before it. */
  lemma SameLast(rs: seq<Range>, rs': seq<Range>)
    requires InBounds(rs) && Maximal(rs) && InBounds(rs') && Maximal(rs') && Numbers(rs) == Numbers(rs') && rs != []
             && rs' != []
    ensures rs[|rs| - 1] == rs'[|rs'| - 1] && Numbers(rs[..|rs| - 1]) == Numbers(rs'[..|rs'| - 1])
  {
    NumbersEnd(rs);
    NumbersEnd(rs');
    SameLow(rs, rs');
    SameLow(rs', rs);
    FrontNumbers(rs);
    FrontNumbers(rs');
  }

  /** Counting back through the last range. */
  lemma LastRun(rs: seq<Range>, d: nat)
    requires InBounds(rs) && rs != [] && d <= rs[|rs| - 1].high - rs[|rs| - 1].low
    ensures d < |Numbers(rs)| && Numbers(rs)[|Numbers(rs)| - 1 - d] == rs[|rs| - 1].high - d
  {
  }

  /** And one step further. */
  lemma BeforeRun(rs: seq<Range>)
    requires InBounds(rs) && Maximal(rs) && rs != []
    ensures var d := rs[|rs| - 1].high - rs[|rs| - 1].low + 1;
            if |rs| == 1 then |Numbers(rs)| == d
            else |Numbers(rs)| > d && Numbers(rs)[|Numbers(rs)| - 1 - d] == rs[|rs| - 2].high < rs[|rs| - 1].low - 1
  {
    if |rs| > 1 { NumbersEnd(rs[..|rs| - 1]); }
  }

  /** The last range reaches down as far as the run does. */
  lemma SameLow(rs: seq<Range>, rs': seq<Range>)
    requires InBounds(rs) && Maximal(rs) && InBounds(rs') && Maximal(rs') && Numbers(rs) == Numbers(rs') && rs != []
             && rs' != []
    ensures rs[|rs| - 1].low >= rs'[|rs'| - 1].low
  {
    NumbersEnd(rs);
    NumbersEnd(rs');
    if rs[|rs| - 1].low < rs'[|rs'| - 1].low {
      LastRun(rs, rs'[|rs'| - 1].high - rs'[|rs'| - 1].low + 1);
      BeforeRun(rs');
    }
  }

  // ----- What the operation promises -----

  /** The printed text of a list reads back as the list; that of the empty list is empty and is refused. */
  lemma ReadsBack(text: string, xs: seq<int>, rs: seq<Range>)
    requires Prints(text, xs, rs)
    ensures xs == [] ==> text == "" && Parse(text) == Failed(NotANumber)
    ensures xs != [] ==> Parse(text) == Vlans(xs)
  {
    RoundTripIff(rs);
    if rs == [] {
      EmptyText();
    } else {
      NumbersEnd(rs);
    }
  }

  lemma EmptyText()
    ensures Parse("") == Failed(NotANumber)
  {
    assert Split("", ',') == [""] && Split("", '-') == [""];
    assert ParsePiece("") == Failed(NotANumber);
    assert [""][..0] == [];
  }

  predicate NothingFree(available: seq<int>, inUse: seq<int>) {
    forall x :: x in available ==> x in inUse
  }

  /** The list is exactly what is available and not in use, in order. */
  ghost predicate ListsFree(xs: seq<int>, available: seq<int>, inUse: seq<int>) {
    Ascending(xs) && forall x :: x in xs <==> x in available && x !in inUse
  }

  lemma FreeListed(xs: seq<int>, available: seq<int>, inUse: seq<int>)
    requires Ascending(xs) && forall x :: x in xs <==> x in ToSet(available) - ToSet(inUse)
    ensures ListsFree(xs, available, inUse) && (xs == [] <==> NothingFree(available, inUse))
  {
    forall x ensures x in xs <==> x in available && x !in inUse {
      assert x in ToSet(available) - ToSet(inUse) <==> x in available && x !in inUse;
    }
    if xs != [] { assert xs[0] in xs; }
  }

  /** The text for what is available and not in use: parsing it gives exactly those VLANs in order, unless
      there are none; then the text is empty, and the parser refuses it. */
  method VlansAvailable(available: seq<int>, inUse: seq<int>) returns (text: string)
    requires forall x :: x in available ==> 0 <= x <= MAX_VLAN
    ensures NothingFree(available, inUse) ==> text == "" && Parse(text) == Failed(NotANumber)
    ensures !NothingFree(available, inUse) ==> Parse(text).Vlans? && ListsFree(Parse(text).vlans, available, inUse)
  {
    var diff := ToSet(available) - ToSet(inUse);
    var sorted := SortedList(diff);
    FreeListed(sorted, available, inUse);
    text := PrintRanges(sorted);
    ghost var rs :| Prints(text, sorted, rs);
    ReadsBack(text, sorted, rs);
  }
}
