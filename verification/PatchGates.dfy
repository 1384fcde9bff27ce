/** The line walks over unified diffs behind `patch_file`
    (amop/sandbox/tools.py). A diff and a file are given as their lines. */
module PatchGates {
  import opened Wrappers

  // ----- Hunk headers -----

  predicate IsDigit(c: char) {
    '0' <= c <= '9'
  }

  predicate StartsNumber(s: string) {
    s != [] && IsDigit(s[0])
  }

  /** The digits `s` starts with, read after `value`, and what follows them. */
  function Number(s: string, value: nat): (nat, string) {
    if StartsNumber(s) then Number(s[1..], value * 10 + (s[0] as int - '0' as int)) else (value, s)
  }

  /** Past an optional `,count`. */
  function SkipCount(s: string): string {
    if "," <= s && StartsNumber(s[1..]) then Number(s[1..], 0).1 else s
  }

  /** A `+start[,count] @@` follows. */
  predicate NewSideFollows(s: string) {
    " +" <= s && StartsNumber(s[2..]) && " @@" <= SkipCount(Number(s[2..], 0).1)
  }

  /** The old-file start of a line `@@ -start[,count] +start[,count] @@...`. */
  function ParseHeader(line: string): Option<nat> {
    if "@@ -" <= line && StartsNumber(line[4..]) && NewSideFollows(SkipCount(Number(line[4..], 0).1))
    then Some(Number(line[4..], 0).0)
    else None
  }

  lemma HeadersStartHunks(line: string)
    ensures ParseHeader(line).Some? ==> Opens(line, false)
    ensures Opens(line, false) ==> Opens(line, true)
  {
  }

  // ----- What a header is -----

  predicate AllDigits(s: string) {
    forall i :: 0 <= i < |s| ==> IsDigit(s[i])
  }

  /** The number a digit string denotes: its last digit counts once, the rest tenfold. */
  function Value(d: string): nat
    requires AllDigits(d)
  {
    if d == "" then 0 else Value(d[..|d| - 1]) * 10 + (d[|d| - 1] as int - '0' as int)
  }

  /** Nothing, or a comma and digits. */
  predicate IsCount(c: string) {
    c == "" || (|c| > 1 && c[0] == ',' && AllDigits(c[1..]))
  }

  /** The parts of a header `@@ -start[,count] +start[,count] @@...`. */
  datatype Header = Header(start: string, count: string, newStart: string, newCount: string, rest: string)

  predicate IsHeader(h: Header) {
    h.start != "" && AllDigits(h.start) && IsCount(h.count) &&
    h.newStart != "" && AllDigits(h.newStart) && IsCount(h.newCount)
  }

  function NewSideText(start: string, count: string, rest: string): string {
    " +" + (start + (count + (" @@" + rest)))
  }

  function HeaderText(h: Header): string {
    "@@ -" + (h.start + (h.count + NewSideText(h.newStart, h.newCount, h.rest)))
  }

  /** `Value`, read from the front after `v`. */
  function ValueAfter(v: nat, d: string): nat
    requires AllDigits(d)
    decreases |d|
  {
    if d == "" then v else ValueAfter(v * 10 + (d[0] as int - '0' as int), d[1..])
  }

  lemma {:induction false} ValueAfterSnoc(v: nat, d: string)
    requires AllDigits(d) && d != ""
    ensures ValueAfter(v, d) == ValueAfter(v, d[..|d| - 1]) * 10 + (d[|d| - 1] as int - '0' as int)
    decreases |d|
  {
    if |d| > 1 {
      ValueAfterSnoc(v * 10 + (d[0] as int - '0' as int), d[1..]);
      assert d[1..][..|d| - 2] == d[..|d| - 1][1..];
    }
  }

  lemma {:induction false} ValueFromFront(d: string)
    requires AllDigits(d)
    ensures ValueAfter(0, d) == Value(d)
    decreases |d|
  {
    if d != "" {
      ValueFromFront(d[..|d| - 1]);
      ValueAfterSnoc(0, d);
    }
  }

  /** A number is read up to the first character that is no digit. */
  lemma {:induction false} NumberReads(d: string, rest: string, v: nat)
    requires AllDigits(d) && !StartsNumber(rest)
    ensures Number(d + rest, v) == (ValueAfter(v, d), rest)
    decreases |d|
  {
    if d == "" {
      assert d + rest == rest;
    } else {
      assert (d + rest)[0] == d[0] && (d + rest)[1..] == d[1..] + rest;
      NumberReads(d[1..], rest, v * 10 + (d[0] as int - '0' as int));
    }
  }

  lemma {:induction false} NumberSplits(s: string, v: nat) returns (d: string)
    ensures AllDigits(d) && s == d + Number(s, v).1 && Number(s, v).0 == ValueAfter(v, d)
    ensures !StartsNumber(Number(s, v).1) && (StartsNumber(s) ==> d != "")
    decreases |s|
  {
    if StartsNumber(s) {
      var more := NumberSplits(s[1..], v * 10 + (s[0] as int - '0' as int));
      d := [s[0]] + more;
      assert d[1..] == more && s == [s[0]] + s[1..];
    } else {
      d := "";
    }
  }

  lemma CountSkipped(c: string, rest: string)
    requires IsCount(c) && rest != "" && rest[0] == ' '
    ensures SkipCount(c + rest) == rest && !StartsNumber(c + rest)
  {
    if c == "" {
      assert c + rest == rest;
    } else {
      assert (c + rest)[1..] == c[1..] + rest && (c + rest)[0] == ',';
      NumberReads(c[1..], rest, 0);
      assert c[1..][0] == c[1] && StartsNumber(c[1..] + rest);
    }
  }

  lemma CountSplits(s: string) returns (c: string)
    ensures IsCount(c) && s == c + SkipCount(s)
  {
    c := "";
    if "," <= s && StartsNumber(s[1..]) {
      var d := NumberSplits(s[1..], 0);
      c := "," + d;
      assert c[1..] == d && s == "," + s[1..];
    }
  }

  lemma NumberIsValue(d: string, rest: string)
    requires AllDigits(d) && d != "" && !StartsNumber(rest)
    ensures Number(d + rest, 0) == (Value(d), rest) && StartsNumber(d + rest)
  {
    NumberReads(d, rest, 0);
    ValueFromFront(d);
    assert (d + rest)[0] == d[0];
  }

  lemma StartIsRead(d: string, c: string, rest: string)
    requires d != "" && AllDigits(d) && IsCount(c) && rest != "" && rest[0] == ' '
    ensures var s := d + (c + rest);
            StartsNumber(s) && Number(s, 0).0 == Value(d) && SkipCount(Number(s, 0).1) == rest
  {
    CountSkipped(c, rest);
    NumberIsValue(d, c + rest);
  }

  lemma NewSideIsRead(d: string, c: string, rest: string)
    requires d != "" && AllDigits(d) && IsCount(c)
    ensures NewSideFollows(NewSideText(d, c, rest))
  {
    var tail := " @@" + rest;
    StartIsRead(d, c, tail);
    assert NewSideText(d, c, rest)[2..] == d + (c + tail);
  }

  lemma HeaderParses(h: Header)
    requires IsHeader(h)
    ensures ParseHeader(HeaderText(h)) == Some(Value(h.start))
  {
    var new_ := NewSideText(h.newStart, h.newCount, h.rest);
    NewSideIsRead(h.newStart, h.newCount, h.rest);
    StartIsRead(h.start, h.count, new_);
    assert HeaderText(h)[4..] == h.start + (h.count + new_);
  }

  lemma StartSplits(s: string) returns (d: string, c: string)
    requires StartsNumber(s)
    ensures d != "" && AllDigits(d) && IsCount(c) && s == d + (c + SkipCount(Number(s, 0).1))
  {
    d := NumberSplits(s, 0);
    c := CountSplits(Number(s, 0).1);
  }

  lemma NewSideSplits(s: string) returns (d: string, c: string, rest: string)
    requires NewSideFollows(s)
    ensures d != "" && AllDigits(d) && IsCount(c) && s == NewSideText(d, c, rest)
  {
    d, c := StartSplits(s[2..]);
    var tail := SkipCount(Number(s[2..], 0).1);
    rest := tail[3..];
    assert tail == " @@" + rest && s == " +" + s[2..];
  }

  lemma ParsedIsHeader(line: string) returns (h: Header)
    requires ParseHeader(line).Some?
    ensures IsHeader(h) && line == HeaderText(h)
  {
    var d, c := StartSplits(line[4..]);
    var new_ := SkipCount(Number(line[4..], 0).1);
    var e, c2, rest := NewSideSplits(new_);
    h := Header(d, c, e, c2, rest);
    assert line == "@@ -" + line[4..];
  }

  /** A line is a header, and starts its hunk at line `n`, exactly if it is built
      like one with `n` for its first number. */
  lemma HeaderIff(line: string, n: nat)
    ensures ParseHeader(line) == Some(n) <==>
            exists h: Header :: IsHeader(h) && line == HeaderText(h) && n == Value(h.start)
  {
    if ParseHeader(line).Some? {
      var h := ParsedIsHeader(line);
      HeaderParses(h);
    }
    forall h: Header | IsHeader(h) && line == HeaderText(h) ensures ParseHeader(line) == Some(Value(h.start)) {
      HeaderParses(h);
    }
  }

  // ----- Hunks -----

  /** A hunk's old side: where it says it starts, and its context and removed
      lines with their markers. */
  datatype Hunk = Hunk(start: nat, old_: seq<(char, string)>)

  predicate IsOldLine(line: string) {
    line != [] && (line[0] == ' ' || line[0] == '-')
  }

  function OldLine(line: string): (char, string)
    requires line != []
  {
    (line[0], line[1..])
  }

  /** Whether a line ends the body before it: for the walks that read line
      numbers it starts `@@ `, for the loose one `@@`. */
  predicate Opens(line: string, loose: bool) {
    (if loose then "@@" else "@@ ") <= line
  }

  function IfOld(line: string): seq<(char, string)> {
    if IsOldLine(line) then [OldLine(line)] else []
  }

  /** The context and removed lines of the body at line `i`; all its other lines
      consume no line of the old file. */
  function OldSide(lines: seq<string>, i: nat, loose: bool): seq<(char, string)>
    requires i <= |lines|
    decreases |lines| - i
  {
    if i == |lines| || Opens(lines[i], loose) then [] else IfOld(lines[i]) + OldSide(lines, i + 1, loose)
  }

  /** Where the body at line `i` ends. */
  function BodyEnd(lines: seq<string>, i: nat, loose: bool): (e: nat)
    requires i <= |lines|
    ensures i <= e <= |lines|
    decreases |lines| - i
  {
    if i == |lines| || Opens(lines[i], loose) then i else BodyEnd(lines, i + 1, loose)
  }

  /** Every hunk at or after line `i` that has a well-formed header, in order. */
  function HunksFrom(lines: seq<string>, i: nat): seq<Hunk>
    requires i <= |lines|
    decreases |lines| - i
  {
    if i == |lines| then []
    else if ParseHeader(lines[i]).None? then HunksFrom(lines, i + 1)
    else
      [HunkAt(lines, i)] + HunksFrom(lines, BodyEnd(lines, i + 1, false))
  }

  function HunkAt(lines: seq<string>, i: nat): Hunk
    requires i < |lines| && ParseHeader(lines[i]).Some?
  {
    Hunk(ParseHeader(lines[i]).value, OldSide(lines, i + 1, false))
  }

  function Hunks(lines: seq<string>): seq<Hunk> {
    HunksFrom(lines, 0)
  }

  // ----- What the hunks are -----

  predicate AreHeaders(lines: seq<string>, found: seq<nat>) {
    forall k :: 0 <= k < |found| ==> found[k] < |lines| && ParseHeader(lines[found[k]]).Some?
  }

  /** The lines that are headers, in order. */
  function HeadersFrom(lines: seq<string>, i: nat): (found: seq<nat>)
    requires i <= |lines|
    ensures AreHeaders(lines, found)
    decreases |lines| - i
  {
    if i == |lines| then []
    else (if ParseHeader(lines[i]).Some? then [i] else []) + HeadersFrom(lines, i + 1)
  }

  /** `found` are all headers at or after line `i`, in order. */
  predicate AllHeaders(lines: seq<string>, i: nat, found: seq<nat>) {
    && (forall k :: 0 <= k < |found| ==> i <= found[k])
    && (forall a, b :: 0 <= a < b < |found| ==> found[a] < found[b])
    && forall j :: i <= j < |lines| && ParseHeader(lines[j]).Some? ==> j in found
  }

  lemma AllHeadersCons(lines: seq<string>, i: nat, later: seq<nat>)
    requires AllHeaders(lines, i + 1, later)
    ensures AllHeaders(lines, i, [i] + later)
  {
    var found := [i] + later;
    assert forall k :: 0 < k < |found| ==> found[k] == later[k - 1];
  }

  lemma {:induction false} HeadersAreAll(lines: seq<string>, i: nat)
    requires i <= |lines|
    ensures AllHeaders(lines, i, HeadersFrom(lines, i))
    decreases |lines| - i
  {
    if i < |lines| {
      HeadersAreAll(lines, i + 1);
      AllHeadersCons(lines, i, HeadersFrom(lines, i + 1));
    }
  }

  /** A body runs to the next line that starts with the opening mark, or to the end. */
  lemma {:induction false} BodyEndIsNext(lines: seq<string>, i: nat, loose: bool)
    requires i <= |lines|
    ensures var e, mark := BodyEnd(lines, i, loose), if loose then "@@" else "@@ ";
            (forall j :: i <= j < e ==> !(mark <= lines[j])) && (e < |lines| ==> mark <= lines[e])
    decreases |lines| - i
  {
    if i < |lines| && !Opens(lines[i], loose) {
      BodyEndIsNext(lines, i + 1, loose);
    }
  }

  predicate StartsOld(line: string) {
    " " <= line || "-" <= line
  }

  /** Each pair is a line of `body`, cut after its first character. */
  ghost predicate AreCut(old_: seq<(char, string)>, body: seq<string>) {
    |old_| == |body| && forall k :: 0 <= k < |body| ==> [old_[k].0] + old_[k].1 == body[k]
  }

  lemma CutOne(line: string, old_: seq<(char, string)>, body: seq<string>)
    requires AreCut(old_, body)
    ensures AreCut(IfOld(line) + old_, Filter([line], StartsOld) + body)
  {
    assert StartsOld(line) <==> IsOldLine(line);
    assert IsOldLine(line) ==> line == [line[0]] + line[1..];
    assert Filter([line], StartsOld) == if StartsOld(line) then [line] else [];
  }

  /** A hunk's old side is every line of its body that starts with a space or a
      minus, in order, cut into that mark and the text after it. */
  lemma {:induction false} OldSideIsFilter(lines: seq<string>, i: nat, loose: bool)
    requires i <= |lines|
    ensures AreCut(OldSide(lines, i, loose), Filter(lines[i..BodyEnd(lines, i, loose)], StartsOld))
    decreases |lines| - i
  {
    var e := BodyEnd(lines, i, loose);
    if i < |lines| && !Opens(lines[i], loose) {
      OldSideIsFilter(lines, i + 1, loose);
      assert lines[i..e] == [lines[i]] + lines[i + 1..e];
      FilterAppend([lines[i]], lines[i + 1..e], StartsOld);
      CutOne(lines[i], OldSide(lines, i + 1, loose), Filter(lines[i + 1..e], StartsOld));
    } else {
      assert lines[i..e] == [];
    }
  }

  lemma {:induction false} NoHeaderInBody(lines: seq<string>, i: nat)
    requires i <= |lines|
    ensures HeadersFrom(lines, i) == HeadersFrom(lines, BodyEnd(lines, i, false))
    decreases |lines| - i
  {
    if i < |lines| && !Opens(lines[i], false) {
      HeadersStartHunks(lines[i]);
      NoHeaderInBody(lines, i + 1);
    }
  }

  function HunksAt(lines: seq<string>, found: seq<nat>): seq<Hunk>
    requires AreHeaders(lines, found)
  {
    if found == [] then []
    else assert AreHeaders(lines, found[1..]); [HunkAt(lines, found[0])] + HunksAt(lines, found[1..])
  }

  lemma HunksAtCons(lines: seq<string>, i: nat, rest: seq<nat>)
    requires i < |lines| && ParseHeader(lines[i]).Some? && AreHeaders(lines, rest)
    ensures AreHeaders(lines, [i] + rest) && HunksAt(lines, [i] + rest) == [HunkAt(lines, i)] + HunksAt(lines, rest)
  {
    assert ([i] + rest)[1..] == rest;
  }

  lemma HeadersCons(lines: seq<string>, i: nat)
    requires i < |lines| && ParseHeader(lines[i]).Some?
    ensures HeadersFrom(lines, i) == [i] + HeadersFrom(lines, BodyEnd(lines, i + 1, false))
  {
    NoHeaderInBody(lines, i + 1);
  }

  lemma SameHunksAt(lines: seq<string>, found: seq<nat>, other: seq<nat>)
    requires AreHeaders(lines, found) && found == other
    ensures AreHeaders(lines, other) && HunksAt(lines, found) == HunksAt(lines, other)
  {
  }

  /** There is a hunk for every header line of the diff and no other, in order. */
  lemma {:induction false} HunksAreHeaders(lines: seq<string>, i: nat)
    requires i <= |lines|
    ensures HunksFrom(lines, i) == HunksAt(lines, HeadersFrom(lines, i))
    decreases |lines| - i, 1
  {
    if i < |lines| {
      if ParseHeader(lines[i]).None? {
        HunksAreHeaders(lines, i + 1);
        SameHunksAt(lines, HeadersFrom(lines, i), HeadersFrom(lines, i + 1));
      } else {
        HunkThenHeaders(lines, i);
      }
    }
  }

  lemma {:induction false} HunkThenHeaders(lines: seq<string>, i: nat)
    requires i < |lines| && ParseHeader(lines[i]).Some?
    ensures HunksFrom(lines, i) == HunksAt(lines, HeadersFrom(lines, i))
    decreases |lines| - i, 0
  {
    var e := BodyEnd(lines, i + 1, false);
    HunksAreHeaders(lines, e);
    HeadersCons(lines, i);
    HunksAtCons(lines, i, HeadersFrom(lines, e));
    SameHunksAt(lines, [i] + HeadersFrom(lines, e), HeadersFrom(lines, i));
  }

  /** The old-file line number of a hunk's `k`-th old line is in the file. */
  predicate InFile(h: Hunk, k: nat, real_: seq<string>) {
    1 <= h.start + k <= |real_|
  }

  predicate HunkFaithful(h: Hunk, real_: seq<string>, n: nat)
    requires n <= |h.old_|
  {
    forall k: nat :: k < n && InFile(h, k, real_) ==> real_[h.start + k - 1] == h.old_[k].1
  }

  /** Every context and removed line that claims a line of the file transcribes it. */
  predicate Faithful(hunks: seq<Hunk>, real_: seq<string>) {
    forall h :: h in hunks ==> HunkFaithful(h, real_, |h.old_|)
  }

  datatype Mismatch = Mismatch(lineNo: nat, marker: char, expected: string, actual: string)

  predicate Differs(no: nat, old_: (char, string), real_: seq<string>) {
    1 <= no <= |real_| && real_[no - 1] != old_.1
  }

  /** The walk down one hunk, its first remaining old line at line `no`. */
  function HunkMismatch(no: nat, old_: seq<(char, string)>, real_: seq<string>): Option<Mismatch>
    decreases |old_|
  {
    if old_ == [] then None
    else if Differs(no, old_[0], real_) then Some(Mismatch(no, old_[0].0, old_[0].1, real_[no - 1]))
    else HunkMismatch(no + 1, old_[1..], real_)
  }

  function DiffMismatch(hunks: seq<Hunk>, real_: seq<string>): Option<Mismatch> {
    if hunks == [] then None
    else
      var m := HunkMismatch(hunks[0].start, hunks[0].old_, real_);
      if m.Some? then m else DiffMismatch(hunks[1..], real_)
  }

  /** The `k`-th old line of `h` is a false transcription, with everything before it in the hunk true. */
  ghost predicate FirstIn(m: Mismatch, h: Hunk, k: nat, real_: seq<string>) {
    && k < |h.old_| && InFile(h, k, real_)
    && m == Mismatch(h.start + k, h.old_[k].0, h.old_[k].1, real_[h.start + k - 1])
    && m.expected != m.actual && HunkFaithful(h, real_, k)
  }

  /** The first false transcription of the whole diff. */
  ghost predicate FirstMismatch(m: Mismatch, hunks: seq<Hunk>, real_: seq<string>) {
    exists i: nat, k: nat :: i < |hunks| && FirstIn(m, hunks[i], k, real_) && Faithful(hunks[..i], real_)
  }

  lemma {:induction false} HunkMismatchIsFirst(h: Hunk, k: nat, real_: seq<string>)
    requires k <= |h.old_| && HunkFaithful(h, real_, k)
    ensures var m := HunkMismatch(h.start + k, h.old_[k..], real_);
            if m.None? then HunkFaithful(h, real_, |h.old_|)
            else m.value.lineNo >= h.start && FirstIn(m.value, h, m.value.lineNo - h.start, real_)
    decreases |h.old_| - k
  {
    if k < |h.old_| {
      assert h.old_[k..][1..] == h.old_[k + 1..];
      if !Differs(h.start + k, h.old_[k], real_) {
        HunkMismatchIsFirst(h, k + 1, real_);
      }
    }
  }

  /** The walk finds nothing exactly when every claim about the file is true,
      and otherwise the first false one. */
  lemma {:induction false} DiffMismatchIsFirst(hunks: seq<Hunk>, real_: seq<string>)
    ensures DiffMismatch(hunks, real_).None? <==> Faithful(hunks, real_)
    ensures DiffMismatch(hunks, real_).Some? ==> FirstMismatch(DiffMismatch(hunks, real_).value, hunks, real_)
  {
    if hunks != [] {
      var h, rest := hunks[0], hunks[1..];
      assert h in hunks && forall g :: g in hunks <==> g == h || g in rest;
      assert h.old_[0..] == h.old_;
      HunkMismatchIsFirst(h, 0, real_);
      DiffMismatchIsFirst(rest, real_);
      var first, later := HunkMismatch(h.start, h.old_, real_), DiffMismatch(rest, real_);
      if first.Some? {
        var k: nat := first.value.lineNo - h.start;
        assert FirstIn(first.value, hunks[0], k, real_) && Faithful(hunks[..0], real_);
        assert !HunkFaithful(h, real_, |h.old_|);
      } else if later.Some? {
        MismatchIsLater(h, rest, later.value, real_);
        assert hunks == [h] + rest;
      }
    }
  }

  lemma MismatchIsLater(h: Hunk, rest: seq<Hunk>, m: Mismatch, real_: seq<string>)
    requires HunkFaithful(h, real_, |h.old_|) && FirstMismatch(m, rest, real_)
    ensures FirstMismatch(m, [h] + rest, real_)
  {
    var i: nat, k: nat :| i < |rest| && FirstIn(m, rest[i], k, real_) && Faithful(rest[..i], real_);
    var hunks, next := [h] + rest, i + 1;
    assert hunks[next] == rest[i];
    forall g | g in hunks[..next] ensures HunkFaithful(g, real_, |g.old_|) {
      assert hunks[..next] == [h] + rest[..i];
    }
    assert Faithful(hunks[..next], real_);
  }

  /** What the walk down a hunk's body answers when it stands before line `i`. */
  ghost predicate WillMatch(lines: seq<string>, i: nat, no: nat, real_: seq<string>, end: nat, r: Option<Mismatch>) {
    i <= |lines| && BodyEnd(lines, i, false) == end && HunkMismatch(no, OldSide(lines, i, false), real_) == r
  }

  lemma MatchOn(lines: seq<string>, i: nat, no: nat, real_: seq<string>, end: nat, r: Option<Mismatch>)
    requires WillMatch(lines, i, no, real_, end, r)
    ensures i == |lines| || Opens(lines[i], false) ==> i == end && r.None?
    ensures i < |lines| && !Opens(lines[i], false) ==>
              if !IsOldLine(lines[i]) then WillMatch(lines, i + 1, no, real_, end, r)
              else if Differs(no, OldLine(lines[i]), real_) then
                r == Some(Mismatch(no, lines[i][0], lines[i][1..], real_[no - 1]))
              else WillMatch(lines, i + 1, no + 1, real_, end, r)
  {
    if i < |lines| && !Opens(lines[i], false) {
      MismatchStep(lines[i], no, OldSide(lines, i + 1, false), real_);
    }
  }

  lemma MismatchStep(line: string, no: nat, rest: seq<(char, string)>, real_: seq<string>)
    ensures HunkMismatch(no, IfOld(line) + rest, real_) ==
            if !IsOldLine(line) then HunkMismatch(no, rest, real_)
            else if Differs(no, OldLine(line), real_) then Some(Mismatch(no, line[0], line[1..], real_[no - 1]))
            else HunkMismatch(no + 1, rest, real_)
  {
    if IsOldLine(line) {
      assert (IfOld(line) + rest)[1..] == rest;
    } else {
      assert IfOld(line) + rest == rest;
    }
  }

  /** The walk over the body at line `start`, its first old line at line `no`. */
  method FindHunkMismatch(lines: seq<string>, start: nat, no: nat, real_: seq<string>)
    returns (i: nat, r: Option<Mismatch>)
    requires start <= |lines|
    ensures r == HunkMismatch(no, OldSide(lines, start, false), real_)
    ensures r.None? ==> i == BodyEnd(lines, start, false)
  {
    ghost var found, end := HunkMismatch(no, OldSide(lines, start, false), real_), BodyEnd(lines, start, false);
    i := start;
    var oldLineNo := no;
    while i < |lines| && !Opens(lines[i], false)
      invariant WillMatch(lines, i, oldLineNo, real_, end, found)
      decreases |lines| - i
    {
      MatchOn(lines, i, oldLineNo, real_, end, found);
      var line := lines[i];
      i := i + 1;
      if IsOldLine(line) {
        var expected := line[1..];
        if 0 <= oldLineNo - 1 < |real_| && real_[oldLineNo - 1] != expected {
          return i, Some(Mismatch(oldLineNo, line[0], expected, real_[oldLineNo - 1]));
        }
        oldLineNo := oldLineNo + 1;
      }
    }
    MatchOn(lines, i, oldLineNo, real_, end, found);
    r := None;
  }

  lemma HunksStep(lines: seq<string>, i: nat)
    requires i < |lines|
    ensures ParseHeader(lines[i]).None? ==> HunksFrom(lines, i) == HunksFrom(lines, i + 1)
    ensures ParseHeader(lines[i]).Some? ==>
              var all := HunksFrom(lines, i);
              all != [] && all[0] == HunkAt(lines, i) && all[1..] == HunksFrom(lines, BodyEnd(lines, i + 1, false))
  {
  }

  /** What the walk answers when it stands before line `i`. */
  ghost predicate WillFind(lines: seq<string>, i: nat, real_: seq<string>, r: Option<Mismatch>) {
    i <= |lines| && DiffMismatch(HunksFrom(lines, i), real_) == r
  }

  lemma FindOn(lines: seq<string>, i: nat, real_: seq<string>, r: Option<Mismatch>)
    requires WillFind(lines, i, real_, r)
    ensures i == |lines| ==> r.None?
    ensures i < |lines| && ParseHeader(lines[i]).None? ==> WillFind(lines, i + 1, real_, r)
    ensures i < |lines| && ParseHeader(lines[i]).Some? ==>
              var m := HunkMismatch(ParseHeader(lines[i]).value, OldSide(lines, i + 1, false), real_);
              if m.Some? then r == m else WillFind(lines, BodyEnd(lines, i + 1, false), real_, r)
  {
    if i < |lines| {
      HunksStep(lines, i);
    }
  }

  /** The first context or removed line that does not match the file at the line
      number the diff claims for it; None if there is none. */
  method FindContextMismatch(lines: seq<string>, real_: seq<string>) returns (r: Option<Mismatch>)
    ensures r.None? <==> Faithful(Hunks(lines), real_)
    ensures r.Some? ==> FirstMismatch(r.value, Hunks(lines), real_)
  {
    ghost var found := DiffMismatch(Hunks(lines), real_);
    var i := 0;
    while i < |lines|
      invariant WillFind(lines, i, real_, found)
      decreases |lines| - i
    {
      FindOn(lines, i, real_, found);
      var m := ParseHeader(lines[i]);
      i := i + 1;
      if m.Some? {
        i, r := FindHunkMismatch(lines, i, m.value, real_);
        if r.Some? {
          DiffMismatchIsFirst(Hunks(lines), real_);
          return;
        }
      }
    }
    FindOn(lines, i, real_, found);
    DiffMismatchIsFirst(Hunks(lines), real_);
    return None;
  }

  // ----- The range of old-file lines a diff touches -----

  datatype Range = Range(lo: nat, hi: nat)

  function Max(a: int, b: int): (m: int)
    ensures a <= m && b <= m && (m == a || m == b)
  {
    if a < b then b else a
  }

  function Min(a: int, b: int): int {
    if a < b then a else b
  }

  /** The last old-file line a hunk touches; a pure insertion touches its anchor. */
  function HunkLast(h: Hunk): nat {
    Max(h.start + |h.old_| - 1, h.start)
  }

  function WidenTo(r: Option<Range>, start: nat, end: nat): Option<Range> {
    if r.None? then Some(Range(start, end)) else Some(Range(Min(r.value.lo, start), Max(r.value.hi, end)))
  }

  function Widen(r: Option<Range>, h: Hunk): Option<Range> {
    WidenTo(r, h.start, HunkLast(h))
  }

  function SpanFrom(r: Option<Range>, hunks: seq<Hunk>): Option<Range>
    decreases |hunks|
  {
    if hunks == [] then r else SpanFrom(Widen(r, hunks[0]), hunks[1..])
  }

  function Span(hunks: seq<Hunk>): Option<Range> {
    SpanFrom(None, hunks)
  }

  function TargetRange(lines: seq<string>): Option<Range> {
    Span(Hunks(lines))
  }

  /** `r` runs exactly from the smallest start to the largest end. */
  ghost predicate IsSpan(r: Range, hunks: seq<Hunk>) {
    && (forall h :: h in hunks ==> r.lo <= h.start && HunkLast(h) <= r.hi)
    && (exists h :: h in hunks && h.start == r.lo)
    && (exists h :: h in hunks && HunkLast(h) == r.hi)
  }

  /** `r` is None with nothing done, and otherwise the span of what was done. */
  ghost predicate Spans(r: Option<Range>, hunks: seq<Hunk>) {
    if hunks == [] then r.None? else r.Some? && IsSpan(r.value, hunks)
  }

  lemma WidenSpans(r: Option<Range>, done: seq<Hunk>, h: Hunk)
    requires Spans(r, done)
    ensures Spans(Widen(r, h), done + [h])
  {
    var all, w := done + [h], Widen(r, h).value;
    assert forall g :: g in all <==> g in done || g == h;
    assert h in all;
    if done != [] {
      var a :| a in done && a.start == r.value.lo;
      var b :| b in done && HunkLast(b) == r.value.hi;
      assert a in all && b in all;
    }
  }

  lemma {:induction false} SpanIsTight(r: Option<Range>, done: seq<Hunk>, hunks: seq<Hunk>)
    requires Spans(r, done)
    ensures Spans(SpanFrom(r, hunks), done + hunks)
    decreases |hunks|
  {
    if hunks == [] {
      assert done + hunks == done;
    } else {
      WidenSpans(r, done, hunks[0]);
      SpanIsTight(Widen(r, hunks[0]), done + [hunks[0]], hunks[1..]);
      assert done + [hunks[0]] + hunks[1..] == done + hunks;
    }
  }

  /** Every old-file line number the fidelity walk can compare, or that a hunk
      anchors at, lies in the range the freshness gate wants covered; and the
      range is no wider than its hunks. */
  lemma ComparedLinesAreInRange(lines: seq<string>)
    ensures TargetRange(lines).None? <==> Hunks(lines) == []
    ensures TargetRange(lines).Some? ==> IsSpan(TargetRange(lines).value, Hunks(lines))
    ensures forall h: Hunk :: h in Hunks(lines) ==>
              TargetRange(lines).Some? && TargetRange(lines).value.lo <= h.start <= TargetRange(lines).value.hi
              && h.start + |h.old_| - 1 <= TargetRange(lines).value.hi
  {
    SpanIsTight(None, [], Hunks(lines));
    assert [] + Hunks(lines) == Hunks(lines);
  }

  /** The walk over the body at line `start` of a hunk that starts at old-file line `first`. */
  method CountOldLines(lines: seq<string>, start: nat, first: nat) returns (i: nat, oldLineNo: nat)
    requires start <= |lines|
    ensures i == BodyEnd(lines, start, false) && oldLineNo == first + |OldSide(lines, start, false)|
  {
    i, oldLineNo := start, first;
    while i < |lines| && !Opens(lines[i], false)
      invariant i <= |lines| && BodyEnd(lines, i, false) == BodyEnd(lines, start, false)
      invariant oldLineNo + |OldSide(lines, i, false)| == first + |OldSide(lines, start, false)|
      decreases |lines| - i
    {
      var line := lines[i];
      i := i + 1;
      if IsOldLine(line) {
        oldLineNo := oldLineNo + 1;
      }
    }
  }

  /** What the walk answers when it stands before line `i` with `r` behind it. */
  ghost predicate WillSpan(lines: seq<string>, i: nat, r: Option<Range>, all: Option<Range>) {
    i <= |lines| && SpanFrom(r, HunksFrom(lines, i)) == all
  }

  lemma SpanOn(lines: seq<string>, i: nat, r: Option<Range>, all: Option<Range>)
    requires WillSpan(lines, i, r, all)
    ensures i == |lines| ==> r == all
    ensures i < |lines| && ParseHeader(lines[i]).None? ==> WillSpan(lines, i + 1, r, all)
    ensures i < |lines| && ParseHeader(lines[i]).Some? ==>
              var first := ParseHeader(lines[i]).value;
              WillSpan(lines, BodyEnd(lines, i + 1, false),
                       WidenTo(r, first, HunkLast(HunkAt(lines, i))), all)
  {
    if i < |lines| {
      HunksStep(lines, i);
    }
  }

  /** The same, with the line number the walk over the body ends on. */
  lemma SpanOver(lines: seq<string>, i: nat, r: Option<Range>, all: Option<Range>, start: nat, no: nat)
    requires WillSpan(lines, i, r, all) && i < |lines| && ParseHeader(lines[i]) == Some(start)
    requires no == start + |OldSide(lines, i + 1, false)|
    ensures WillSpan(lines, BodyEnd(lines, i + 1, false), WidenTo(r, start, Max(no as int - 1, start)), all)
  {
    var h := HunkAt(lines, i);
    assert h.start == start && HunkLast(h) == Max(no as int - 1, start);
    SpanOn(lines, i, r, all);
  }

  method DiffTargetRange(lines: seq<string>) returns (r: Option<Range>)
    ensures r == TargetRange(lines)
  {
    ghost var all := TargetRange(lines);
    var i := 0;
    r := None;
    while i < |lines|
      invariant WillSpan(lines, i, r, all)
      decreases |lines| - i
    {
      SpanOn(lines, i, r, all);
      ghost var before := i;
      var m := ParseHeader(lines[i]);
      i := i + 1;
      if m.Some? {
        var oldLineNo;
        i, oldLineNo := CountOldLines(lines, i, m.value);
        SpanOver(lines, before, r, all, m.value, oldLineNo);
        var hunkEnd := Max(oldLineNo as int - 1, m.value);
        r := WidenTo(r, m.value, hunkEnd);
      }
    }
    SpanOn(lines, i, r, all);
  }

  // ----- The position-independent check -----

  function Texts(old_: seq<(char, string)>): (t: seq<string>)
    ensures |t| == |old_| && forall k :: 0 <= k < |t| ==> t[k] == old_[k].1
  {
    if old_ == [] then [] else [old_[0].1] + Texts(old_[1..])
  }

  function IfAny(t: seq<string>): seq<seq<string>> {
    if t == [] then [] else [t]
  }

  /** The old side of every block opened by a line starting `@@`, header or
      not; blocks without one are dropped. */
  function BlocksFrom(lines: seq<string>, i: nat): seq<seq<string>>
    requires i <= |lines|
    decreases |lines| - i
  {
    if i == |lines| then []
    else if !Opens(lines[i], true) then BlocksFrom(lines, i + 1)
    else IfAny(Texts(OldSide(lines, i + 1, true))) + BlocksFrom(lines, BodyEnd(lines, i + 1, true))
  }

  function Blocks(lines: seq<string>): seq<seq<string>> {
    BlocksFrom(lines, 0)
  }

  ghost predicate BlockAt(lines: seq<string>, i: nat, t: seq<string>) {
    i < |lines| && "@@" <= lines[i] && t == Texts(OldSide(lines, i + 1, true)) && t != []
  }

  lemma {:induction false} NoBlockInBody(lines: seq<string>, i: nat)
    requires i <= |lines|
    ensures forall j, t :: i <= j < BodyEnd(lines, i, true) ==> !BlockAt(lines, j, t)
    decreases |lines| - i
  {
    BodyEndIsNext(lines, i, true);
  }

  /** The blocks are the non-empty old sides under the lines that start `@@`. */
  lemma {:induction false} BlocksAreOpenings(lines: seq<string>, i: nat, t: seq<string>)
    requires i <= |lines|
    ensures t in BlocksFrom(lines, i) <==> exists j: nat :: i <= j && BlockAt(lines, j, t)
    decreases |lines| - i
  {
    if i < |lines| {
      if !Opens(lines[i], true) {
        BlocksAreOpenings(lines, i + 1, t);
        assert !BlockAt(lines, i, t);
      } else {
        var e := BodyEnd(lines, i + 1, true);
        NoBlockInBody(lines, i + 1);
        BlocksAreOpenings(lines, e, t);
        assert BlockAt(lines, i, t) <==> t in IfAny(Texts(OldSide(lines, i + 1, true)));
      }
    }
  }

  lemma TextsStep(line: string, rest: seq<(char, string)>)
    ensures Texts(IfOld(line) + rest) == (if IsOldLine(line) then [line[1..]] else []) + Texts(rest)
  {
  }

  /** The walk over a loose block stands before line `i` with `s` behind it. */
  ghost predicate Gathered(lines: seq<string>, i: nat, s: seq<string>, all: seq<string>, end: nat) {
    i <= |lines| && BodyEnd(lines, i, true) == end && all == s + Texts(OldSide(lines, i, true))
  }

  lemma GatherOn(lines: seq<string>, i: nat, s: seq<string>, all: seq<string>, end: nat)
    requires Gathered(lines, i, s, all, end) && i < |lines| && !Opens(lines[i], true)
    ensures Gathered(lines, i + 1, if IsOldLine(lines[i]) then s + [lines[i][1..]] else s, all, end)
  {
    var line, rest := lines[i], OldSide(lines, i + 1, true);
    assert OldSide(lines, i, true) == IfOld(line) + rest && BodyEnd(lines, i, true) == BodyEnd(lines, i + 1, true);
    TextsStep(line, rest);
    PushText(s, line, Texts(rest));
  }

  lemma PushText(s: seq<string>, line: string, rest: seq<string>)
    ensures s + ((if IsOldLine(line) then [line[1..]] else []) + rest) ==
            (if IsOldLine(line) then s + [line[1..]] else s) + rest
  {
  }

  lemma GatheredAll(lines: seq<string>, i: nat, s: seq<string>, all: seq<string>, end: nat)
    requires Gathered(lines, i, s, all, end) && (i == |lines| || Opens(lines[i], true))
    ensures i == end && all == s
  {
  }

  /** The walk over the body at line `start` of a loose block. */
  method BlockTexts(lines: seq<string>, start: nat) returns (i: nat, s: seq<string>)
    requires start <= |lines|
    ensures i == BodyEnd(lines, start, true) && s == Texts(OldSide(lines, start, true))
  {
    i, s := start, [];
    ghost var all, end := Texts(OldSide(lines, i, true)), BodyEnd(lines, i, true);
    while i < |lines| && !Opens(lines[i], true)
      invariant Gathered(lines, i, s, all, end)
      decreases |lines| - i
    {
      GatherOn(lines, i, s, all, end);
      var line := lines[i];
      i := i + 1;
      if IsOldLine(line) {
        s := s + [line[1..]];
      }
    }
    GatheredAll(lines, i, s, all, end);
  }

  ghost predicate WillList(lines: seq<string>, i: nat, done: seq<seq<string>>, all: seq<seq<string>>) {
    i <= |lines| && all == done + BlocksFrom(lines, i)
  }

  lemma ListOn(lines: seq<string>, i: nat, done: seq<seq<string>>, all: seq<seq<string>>)
    requires WillList(lines, i, done, all)
    ensures i == |lines| ==> done == all
    ensures i < |lines| && !Opens(lines[i], true) ==> WillList(lines, i + 1, done, all)
    ensures i < |lines| && Opens(lines[i], true) ==>
              var t := Texts(OldSide(lines, i + 1, true));
              WillList(lines, BodyEnd(lines, i + 1, true), if t == [] then done else done + [t], all)
  {
    if i < |lines| && Opens(lines[i], true) {
      BlockCons(done, Texts(OldSide(lines, i + 1, true)), BlocksFrom(lines, BodyEnd(lines, i + 1, true)));
    }
  }

  lemma BlockCons(done: seq<seq<string>>, t: seq<string>, rest: seq<seq<string>>)
    ensures done + (IfAny(t) + rest) == (if t == [] then done else done + [t]) + rest
  {
    assert t == [] ==> IfAny(t) + rest == rest;
  }

  method HunkOldSideSequences(lines: seq<string>) returns (sequences: seq<seq<string>>)
    ensures sequences == Blocks(lines)
  {
    sequences := [];
    ghost var all := Blocks(lines);
    var i := 0;
    while i < |lines|
      invariant WillList(lines, i, sequences, all)
      decreases |lines| - i
    {
      ListOn(lines, i, sequences, all);
      if !Opens(lines[i], true) {
        i := i + 1;
      } else {
        var s;
        i, s := BlockTexts(lines, i + 1);
        if s != [] {
          sequences := sequences + [s];
        }
      }
    }
    ListOn(lines, i, sequences, all);
  }

  predicate AppearsAt(s: seq<string>, real_: seq<string>, start: nat) {
    start + |s| <= |real_| && real_[start..start + |s|] == s
  }

  ghost predicate Appears(s: seq<string>, real_: seq<string>) {
    exists start: nat :: AppearsAt(s, real_, start)
  }

  method SequenceAppears(s: seq<string>, real_: seq<string>) returns (found: bool)
    ensures found <==> Appears(s, real_)
  {
    if |s| == 0 {
      assert AppearsAt(s, real_, 0);
      return true;
    }
    var start := 0;
    while start < |real_| - |s| + 1
      invariant forall k: nat :: k < start ==> !AppearsAt(s, real_, k)
      decreases |real_| - |s| + 1 - start
    {
      if real_[start..start + |s|] == s {
        assert AppearsAt(s, real_, start);
        return true;
      }
      start := start + 1;
    }
    return false;
  }

  /** What the fidelity gate decides in each of its two modes. */
  ghost predicate PassesFidelity(lines: seq<string>, real_: seq<string>, positionTrustworthy: bool) {
    if positionTrustworthy then Faithful(Hunks(lines), real_)
    else forall s :: s in Blocks(lines) ==> Appears(s, real_)
  }

  method CheckContentFidelity(lines: seq<string>, real_: seq<string>, positionTrustworthy: bool) returns (passes: bool)
    ensures passes <==> PassesFidelity(lines, real_, positionTrustworthy)
  {
    if positionTrustworthy {
      var mismatch := FindContextMismatch(lines, real_);
      return mismatch.None?;
    }
    var sequences := HunkOldSideSequences(lines);
    var i := 0;
    while i < |sequences|
      invariant i <= |sequences| && forall k :: 0 <= k < i ==> Appears(sequences[k], real_)
    {
      var found := SequenceAppears(sequences[i], real_);
      if !found {
        return false;
      }
      i := i + 1;
    }
    return true;
  }

  // ----- Strict against lenient -----

  predicate HeadersWellFormed(lines: seq<string>) {
    forall i :: 0 <= i < |lines| && Opens(lines[i], true) ==> ParseHeader(lines[i]).Some?
  }

  /** Every context and removed line of the hunk claims a line number of the file. */
  predicate ClaimsInFile(h: Hunk, real_: seq<string>) {
    |h.old_| > 0 ==> 1 <= h.start && h.start + |h.old_| - 1 <= |real_|
  }

  /** The hunk's old side is the file's text at the place it names. */
  predicate Transcribes(h: Hunk, real_: seq<string>) {
    |h.old_| == 0 || (h.start >= 1 && AppearsAt(Texts(h.old_), real_, h.start - 1))
  }

  /** A hunk whose claims are all in the file passes the strict check exactly when
      it quotes the file where it says. */
  lemma FaithfulInFileIsExact(h: Hunk, real_: seq<string>)
    ensures HunkFaithful(h, real_, |h.old_|) && ClaimsInFile(h, real_) <==> Transcribes(h, real_)
  {
    var t := Texts(h.old_);
    if |h.old_| > 0 && ClaimsInFile(h, real_) {
      var at := real_[h.start - 1..h.start - 1 + |t|];
      assert forall k: nat :: k < |t| ==> InFile(h, k, real_) && at[k] == real_[h.start + k - 1];
    }
  }

  lemma {:induction false} SameBodies(lines: seq<string>, i: nat)
    requires i <= |lines| && HeadersWellFormed(lines)
    ensures OldSide(lines, i, false) == OldSide(lines, i, true) && BodyEnd(lines, i, false) == BodyEnd(lines, i, true)
    decreases |lines| - i
  {
    if i < |lines| {
      HeadersStartHunks(lines[i]);
      SameBodies(lines, i + 1);
    }
  }

  ghost predicate SameCut(blocks: seq<seq<string>>, hunks: seq<Hunk>) {
    forall s :: s in blocks <==> exists h: Hunk :: h in hunks && |h.old_| > 0 && s == Texts(h.old_)
  }

  lemma CutMore(blocks: seq<seq<string>>, hunks: seq<Hunk>, h: Hunk)
    requires SameCut(blocks, hunks)
    ensures SameCut(IfAny(Texts(h.old_)) + blocks, [h] + hunks)
  {
    var more := [h] + hunks;
    assert h in more && forall g :: g in more <==> g == h || g in hunks;
    forall s ensures s in IfAny(Texts(h.old_)) + blocks <==>
        exists g: Hunk :: g in more && |g.old_| > 0 && s == Texts(g.old_) {
      if s in blocks {
        var g :| g in hunks && |g.old_| > 0 && s == Texts(g.old_);
        assert g in more;
      }
    }
  }

  /** With well-formed headers the two walks cut the diff into the same hunks. */
  lemma {:induction false} SameHunks(lines: seq<string>, i: nat)
    requires i <= |lines| && HeadersWellFormed(lines)
    ensures SameCut(BlocksFrom(lines, i), HunksFrom(lines, i))
    decreases |lines| - i
  {
    if i < |lines| {
      HeadersStartHunks(lines[i]);
      if ParseHeader(lines[i]).None? {
        SameHunks(lines, i + 1);
      } else {
        SameBodies(lines, i + 1);
        var e := BodyEnd(lines, i + 1, false);
        SameHunks(lines, e);
        CutMore(BlocksFrom(lines, e), HunksFrom(lines, e), HunkAt(lines, i));
      }
    }
  }

  /** A well-formed diff that passes the strict check passes the lenient one
      exactly when its hunks that claim lines outside the file, which the strict
      check does not look at, quote a block of the file all the same. */
  lemma StrictImpliesLenientIff(lines: seq<string>, real_: seq<string>)
    requires HeadersWellFormed(lines) && PassesFidelity(lines, real_, true)
    ensures PassesFidelity(lines, real_, false) <==>
            forall h: Hunk :: h in Hunks(lines) && !ClaimsInFile(h, real_) ==> Appears(Texts(h.old_), real_)
  {
    SameHunks(lines, 0);
    forall h: Hunk | h in Hunks(lines) && |h.old_| > 0
      ensures ClaimsInFile(h, real_) ==> Appears(Texts(h.old_), real_)
      ensures Texts(h.old_) in Blocks(lines)
    {
      FaithfulInFileIsExact(h, real_);
    }
  }

  function OneRemoved(header: string): seq<string> {
    [header, "-gone"]
  }

  lemma OneRemovedBody(header: string, loose: bool)
    ensures OldSide(OneRemoved(header), 1, loose) == [('-', "gone")] && BodyEnd(OneRemoved(header), 1, loose) == 2
  {
    assert "-gone"[1..] == "gone" && IfOld("-gone") == [('-', "gone")];
    assert OldSide(OneRemoved(header), 2, loose) == [];
  }

  lemma GoneIsNoBlock(header: string)
    requires Opens(header, true)
    ensures !PassesFidelity(OneRemoved(header), ["kept"], false)
  {
    OneRemovedBody(header, true);
    var d := OneRemoved(header);
    var removed := OldSide(d, 1, true);
    assert removed[0].1 == "gone" && Texts(removed) == ["gone"];
    assert BlocksFrom(d, 2) == [];
    assert Blocks(d) == IfAny(Texts(OldSide(d, 1, true))) + BlocksFrom(d, BodyEnd(d, 1, true)) == [["gone"]];
    assert ["gone"] in Blocks(OneRemoved(header));
    assert forall start: nat :: AppearsAt(["gone"], ["kept"], start) ==> ["kept"][start] == ["gone"][0];
  }

  /** Removing `gone` from a file whose one line is `kept`: the lenient check
      always stops it. The strict check stops it only under a header that names
      line 1, and not under one past the end of the file or under a line that
      opens a hunk for the lenient check but is no header. */
  lemma StrictIsNotAlwaysStricter(header: string)
    requires Opens(header, true)
    ensures !PassesFidelity(OneRemoved(header), ["kept"], false)
    ensures PassesFidelity(OneRemoved(header), ["kept"], true) <==> ParseHeader(header) != Some(1)
  {
    GoneIsNoBlock(header);
    OneRemovedBody(header, false);
    var d := OneRemoved(header);
    assert ParseHeader(d[1]).None? && HunksFrom(d, 1) == [] == HunksFrom(d, 2);
    if ParseHeader(header).Some? {
      var h := Hunk(ParseHeader(header).value, [('-', "gone")]);
      assert Hunks(d) == [h];
      assert HunkFaithful(h, ["kept"], 1) <==> !InFile(h, 0, ["kept"]) by {
        assert "kept"[0] != "gone"[0];
      }
    } else {
      assert Hunks(d) == HunksFrom(d, 1);
    }
  }

  // ----- The format check -----

  predicate IsFileHeader(line: string) {
    "diff --git" <= line || "index " <= line || "--- " <= line || "+++ " <= line
  }

  /** Whether the format walk takes line `n` for part of a hunk. */
  function InHunk(lines: seq<string>, n: nat): bool
    requires n <= |lines|
  {
    if n == 0 then false
    else if Opens(lines[n - 1], true) then true
    else !IsFileHeader(lines[n - 1]) && InHunk(lines, n - 1)
  }

  predicate IsMarked(line: string) {
    line != [] && line[0] in " -+\\"
  }

  predicate DefectAt(lines: seq<string>, n: nat)
    requires n < |lines|
  {
    InHunk(lines, n) && !Opens(lines[n], true) && !IsFileHeader(lines[n]) && !IsMarked(lines[n])
  }

  /** The first unmarked line of a hunk. */
  method FindDiffFormatDefect(lines: seq<string>) returns (r: Option<nat>)
    ensures r.None? ==> forall n :: 0 <= n < |lines| ==> !DefectAt(lines, n)
    ensures r.Some? ==>
              && r.value < |lines| && DefectAt(lines, r.value)
              && forall n :: 0 <= n < r.value ==> !DefectAt(lines, n)
  {
    var inHunk := false;
    var i := 0;
    while i < |lines|
      invariant i <= |lines| && inHunk == InHunk(lines, i)
      invariant forall n :: 0 <= n < i ==> !DefectAt(lines, n)
    {
      var line := lines[i];
      if Opens(line, true) {
        inHunk := true;
      } else if IsFileHeader(line) {
        inHunk := false;
      } else if inHunk && !IsMarked(line) {
        return Some(i);
      }
      i := i + 1;
    }
    return None;
  }

  /** `i` opens a hunk that no line before `n` closes again. */
  ghost predicate OpenSince(lines: seq<string>, i: nat, n: nat)
    requires n <= |lines|
  {
    i < n && Opens(lines[i], true) && forall j :: i < j < n ==> Opens(lines[j], true) || !IsFileHeader(lines[j])
  }

  /** A line is checked exactly when a hunk is open there. A removed line whose
      text starts `-- ` reads as a file header, so it closes the hunk it is in. */
  lemma {:induction false} CheckedIff(lines: seq<string>, n: nat)
    requires n <= |lines|
    ensures InHunk(lines, n) <==> exists i: nat :: OpenSince(lines, i, n)
  {
    if n > 0 {
      var m := n - 1;
      CheckedIff(lines, m);
      if Opens(lines[m], true) {
        assert OpenSince(lines, m, n);
      } else {
        forall i: nat ensures OpenSince(lines, i, n) ==> OpenSince(lines, i, m) && !IsFileHeader(lines[m]) {
          assert i == m ==> !OpenSince(lines, i, n);
        }
        forall i: nat ensures OpenSince(lines, i, m) && !IsFileHeader(lines[m]) ==> OpenSince(lines, i, n) {
        }
      }
    }
  }

  /** A line is a defect exactly if it is in an open hunk, neither opens one nor
      reads as a file header, and starts with none of the four markers. */
  lemma DefectIff(lines: seq<string>, n: nat)
    requires n < |lines|
    ensures DefectAt(lines, n) <==>
            && (exists i: nat :: OpenSince(lines, i, n))
            && !("@@" <= lines[n]) && !("diff --git" <= lines[n]) && !("index " <= lines[n])
            && !("--- " <= lines[n]) && !("+++ " <= lines[n])
            && !(" " <= lines[n]) && !("-" <= lines[n]) && !("+" <= lines[n]) && !("\\" <= lines[n])
  {
    CheckedIff(lines, n);
    var line := lines[n];
    assert IsMarked(line) <==> " " <= line || "-" <= line || "+" <= line || "\\" <= line;
  }

  /** So after a removed line whose text starts `-- `, a line without any marker
      passes the check. */
  lemma MarkerlessLineEscapes(header: string, text: string, line: string)
    requires Opens(header, true) && !Opens(line, true) && !IsMarked(line)
    ensures var diff := [header, "--- " + text, line];
            IsOldLine(diff[1]) && InHunk(diff, 1) && forall n :: 0 <= n < |diff| ==> !DefectAt(diff, n)
  {
    var diff := [header, "--- " + text, line];
    assert diff[1][0] == '-' && diff[1][1] == '-' && diff[1][2] == '-' && diff[1][3] == ' ';
    assert IsFileHeader(diff[1]) && !Opens(diff[1], true);
    assert InHunk(diff, 1) && !InHunk(diff, 2);
  }

  // ----- Which file a diff is for -----

  function OldHeader(rel: string): string {
    "--- a/" + rel
  }

  function NewHeader(rel: string): string {
    "+++ b/" + rel
  }

  predicate HasLine(lines: seq<string>, mark: string) {
    exists i :: 0 <= i < |lines| && mark <= lines[i]
  }

  /** The first line of all that starts with `mark`. */
  ghost predicate FirstOf(lines: seq<string>, mark: string, i: nat) {
    i < |lines| && mark <= lines[i] && forall j :: 0 <= j < i ==> !(mark <= lines[j])
  }

  /** Both header lines are there, and this is the first of its kind. */
  ghost predicate Rewritten(diff: seq<string>, i: nat) {
    HasLine(diff, "--- ") && HasLine(diff, "+++ ") && (FirstOf(diff, "--- ", i) || FirstOf(diff, "+++ ", i))
  }

  /** The diff handed to git for the file `rel`: if both header lines are there the
      first of each is rewritten, otherwise both are put in front. */
  ghost predicate IsNormalized(diff: seq<string>, rel: string, n: seq<string>) {
    if HasLine(diff, "--- ") && HasLine(diff, "+++ ") then
      |n| == |diff| && forall i :: 0 <= i < |diff| ==> NormalLine(diff, rel, i, n[i])
    else n == [OldHeader(rel), NewHeader(rel)] + diff
  }

  ghost predicate NormalLine(diff: seq<string>, rel: string, i: nat, line: string)
    requires i < |diff|
  {
    line == if FirstOf(diff, "--- ", i) then OldHeader(rel)
            else if FirstOf(diff, "+++ ", i) then NewHeader(rel)
            else diff[i]
  }

  function NormalizeFrom(lines: seq<string>, rel: string, oldDone: bool, newDone: bool): (n: seq<string>)
    ensures |n| == |lines|
  {
    if lines == [] then []
    else if !oldDone && "--- " <= lines[0] then [OldHeader(rel)] + NormalizeFrom(lines[1..], rel, true, newDone)
    else if !newDone && "+++ " <= lines[0] then [NewHeader(rel)] + NormalizeFrom(lines[1..], rel, oldDone, true)
    else [lines[0]] + NormalizeFrom(lines[1..], rel, oldDone, newDone)
  }

  function Normalize(diff: seq<string>, rel: string): seq<string> {
    if HasLine(diff, "--- ") && HasLine(diff, "+++ ") then NormalizeFrom(diff, rel, false, false)
    else [OldHeader(rel), NewHeader(rel)] + diff
  }

  /** The loop stands before line `i` with `n` behind it. */
  ghost predicate WillNormalize(
    diff: seq<string>, rel: string, i: nat, n: seq<string>, oldDone: bool, newDone: bool, all: seq<string>)
  {
    i <= |diff| && all == n + NormalizeFrom(diff[i..], rel, oldDone, newDone)
  }

  lemma NormalizeOn(
    diff: seq<string>, rel: string, i: nat, n: seq<string>, oldDone: bool, newDone: bool, all: seq<string>)
    requires WillNormalize(diff, rel, i, n, oldDone, newDone, all) && i < |diff|
    ensures var line := diff[i];
            if !oldDone && "--- " <= line then
              WillNormalize(diff, rel, i + 1, n + [OldHeader(rel)], true, newDone, all)
            else if !newDone && "+++ " <= line then
              WillNormalize(diff, rel, i + 1, n + [NewHeader(rel)], oldDone, true, all)
            else WillNormalize(diff, rel, i + 1, n + [line], oldDone, newDone, all)
  {
    assert diff[i..][0] == diff[i] && diff[i..][1..] == diff[i + 1..];
  }

  method NormalizeDiffHeaders(diff: seq<string>, rel: string) returns (n: seq<string>)
    ensures n == Normalize(diff, rel)
  {
    var hasOld, hasNew := HasLine(diff, "--- "), HasLine(diff, "+++ ");
    if !(hasOld && hasNew) {
      return [OldHeader(rel), NewHeader(rel)] + diff;
    }
    var oldDone, newDone := false, false;
    n := [];
    ghost var all := NormalizeFrom(diff, rel, false, false);
    assert diff[0..] == diff;
    for i := 0 to |diff|
      invariant WillNormalize(diff, rel, i, n, oldDone, newDone, all)
    {
      NormalizeOn(diff, rel, i, n, oldDone, newDone, all);
      var line := diff[i];
      if !oldDone && "--- " <= line {
        n := n + [OldHeader(rel)];
        oldDone := true;
      } else if !newDone && "+++ " <= line {
        n := n + [NewHeader(rel)];
        newDone := true;
      } else {
        n := n + [line];
      }
    }
  }

  lemma NormalizeStep(diff: seq<string>, rel: string, start: nat, oldDone: bool, newDone: bool)
    requires start < |diff|
    ensures var line := diff[start];
            var first := if !oldDone && "--- " <= line then OldHeader(rel)
                         else if !newDone && "+++ " <= line then NewHeader(rel)
                         else line;
            NormalizeFrom(diff[start..], rel, oldDone, newDone) ==
              [first] + NormalizeFrom(diff[start + 1..], rel, oldDone || "--- " <= line, newDone || "+++ " <= line)
  {
    var line := diff[start];
    assert diff[start..][0] == line && diff[start..][1..] == diff[start + 1..];
    assert !("--- " <= line && "+++ " <= line) by {
      assert "--- " <= line ==> line[0] == '-';
      assert "+++ " <= line ==> line[0] == '+';
    }
  }

  lemma {:induction false} NormalizeFromAt(diff: seq<string>, rel: string, start: nat, i: nat)
    requires start <= i < |diff|
    ensures var oldDone, newDone := HasLine(diff[..start], "--- "), HasLine(diff[..start], "+++ ");
            NormalLine(diff, rel, i, NormalizeFrom(diff[start..], rel, oldDone, newDone)[i - start])
    decreases i - start
  {
    var oldDone, newDone := HasLine(diff[..start], "--- "), HasLine(diff[..start], "+++ ");
    HasLineSnoc(diff, start, "--- ");
    HasLineSnoc(diff, start, "+++ ");
    NormalizeStep(diff, rel, start, oldDone, newDone);
    if start < i {
      NormalizeFromAt(diff, rel, start + 1, i);
    }
  }

  lemma HasLineSnoc(diff: seq<string>, start: nat, mark: string)
    requires start < |diff|
    ensures HasLine(diff[..start + 1], mark) <==> HasLine(diff[..start], mark) || mark <= diff[start]
    ensures FirstOf(diff, mark, start) <==> mark <= diff[start] && !HasLine(diff[..start], mark)
  {
    var before, upto := diff[..start], diff[..start + 1];
    assert forall i :: 0 <= i < start ==> before[i] == diff[i] == upto[i];
    assert upto[start] == diff[start];
  }

  /** Normalizing does what it says to the two lines, and nothing to any other. */
  lemma NormalizeIsNormalized(diff: seq<string>, rel: string)
    ensures IsNormalized(diff, rel, Normalize(diff, rel))
  {
    if HasLine(diff, "--- ") && HasLine(diff, "+++ ") {
      assert diff[..0] == [] && diff[0..] == diff;
      forall i | 0 <= i < |diff| ensures NormalLine(diff, rel, i, Normalize(diff, rel)[i]) {
        NormalizeFromAt(diff, rel, 0, i);
      }
    }
  }

  /** Lines git may take the name of a file from. */
  predicate IsNameLine(line: string) {
    "diff --git " <= line || "--- " <= line || "+++ " <= line || "rename " <= line || "copy " <= line
  }

  lemma NameLineIff(line: string)
    ensures IsNameLine(line) <==>
            exists rest ::
              || line == "diff --git " + rest || line == "--- " + rest || line == "+++ " + rest
              || line == "rename " + rest || line == "copy " + rest
  {
    if "diff --git " <= line {
      assert line == "diff --git " + line[11..];
    } else if "--- " <= line {
      assert line == "--- " + line[4..];
    } else if "+++ " <= line {
      assert line == "+++ " + line[4..];
    } else if "rename " <= line {
      assert line == "rename " + line[7..];
    } else if "copy " <= line {
      assert line == "copy " + line[5..];
    }
  }

  /** A name line, if it is one, that names `rel`. */
  predicate Names(line: string, rel: string) {
    IsNameLine(line) ==>
      line == OldHeader(rel) || line == NewHeader(rel) || line == "diff --git a/" + rel + " b/" + rel
  }

  /** Nothing in the diff names another file. */
  predicate NamesOnly(diff: seq<string>, rel: string) {
    forall i :: 0 <= i < |diff| ==> Names(diff[i], rel)
  }

  lemma RewrittenNames(diff: seq<string>, rel: string, n: seq<string>, i: nat)
    requires i < |diff| && HasLine(diff, "--- ") && HasLine(diff, "+++ ") && IsNormalized(diff, rel, n)
    ensures Names(n[i], rel) <==> Rewritten(diff, i) || Names(diff[i], rel)
  {
    assert NormalLine(diff, rel, i, n[i]);
  }

  lemma PrefixedNamesIff(diff: seq<string>, rel: string)
    ensures NamesOnly([OldHeader(rel), NewHeader(rel)] + diff, rel) <==> NamesOnly(diff, rel)
  {
    var n := [OldHeader(rel), NewHeader(rel)] + diff;
    assert forall i :: 0 <= i < |diff| ==> n[i + 2] == diff[i];
    forall i | 0 <= i < |diff| && NamesOnly(n, rel) ensures Names(diff[i], rel) {
      assert Names(n[i + 2], rel);
    }
    forall j | 0 <= j < |n| && NamesOnly(diff, rel) ensures Names(n[j], rel) {
      assert j < 2 || n[j] == diff[j - 2];
    }
  }

  /** Normalizing makes a diff name the file `rel` alone if and only if every name
      line but the two it rewrites did so before. */
  lemma NormalizedNamesIff(diff: seq<string>, rel: string)
    ensures NamesOnly(Normalize(diff, rel), rel) <==>
            forall i :: 0 <= i < |diff| ==> Rewritten(diff, i) || Names(diff[i], rel)
  {
    var n := Normalize(diff, rel);
    NormalizeIsNormalized(diff, rel);
    if HasLine(diff, "--- ") && HasLine(diff, "+++ ") {
      forall i | 0 <= i < |diff| ensures Names(n[i], rel) <==> Rewritten(diff, i) || Names(diff[i], rel) {
        RewrittenNames(diff, rel, n, i);
      }
    } else {
      PrefixedNamesIff(diff, rel);
      assert forall i :: !Rewritten(diff, i);
    }
  }
}
