/** What one coding attempt has seen of each file, and the gates that compare it
    with what an edit touches (amop/sandbox/tools.py). */
module ReadTracking {
  import opened Wrappers
  import opened PatchGates

  // ----- Reading -----

  const WHOLE_FILE_BYTES := 24_000
  const NOTICE_CHARS := 8_000
  const SCOPED_LINES := 60
  const UNBOUNDED_END := 1_000_000_000

  /** A file: its lines with their ends, and its size on disk. */
  datatype File = File(lines: seq<string>, bytes: nat)

  function Decimal(n: nat): (s: string)
    ensures s != [] && IsDigit(s[0])
  {
    var digit := [(n % 10) as char + '0'];
    if n < 10 then digit else Decimal(n / 10) + digit
  }

  function Shown(line: string, n: nat, numbered: bool): string {
    if numbered then Decimal(n) + ": " + line else line
  }

  /** The text of `lines`, the first of them line `lo`. */
  function Body(lines: seq<string>, lo: nat, numbered: bool): string {
    if lines == [] then "" else Shown(lines[0], lo, numbered) + Body(lines[1..], lo + 1, numbered)
  }

  function Take(lines: seq<string>): seq<string> {
    if |lines| <= SCOPED_LINES then lines else lines[..SCOPED_LINES]
  }

  /** What a read gives back: lines `lo` to `hi`, after a notice or not. */
  datatype Reading = Reading(lo: nat, hi: nat, noticed: bool, body: string, numbered: bool)

  datatype Request = Request(start: Option<int>, end: Option<int>, withNumbers: bool) {
    predicate WholeFile() {
      start.None? && end.None?
    }

    function Lo(): nat {
      if start.None? then 1 else Max(1, start.value)
    }

    function Hi(total: nat): int {
      if end.None? then total else Min(total, end.value)
    }

    /** The lines a scoped read selects. */
    predicate InRange(total: nat) {
      Lo() <= total && Lo() <= Hi(total)
    }

    function Selected(f: File): seq<string>
      requires InRange(|f.lines|)
    {
      f.lines[Lo() - 1..Hi(|f.lines|)]
    }

    predicate Oversized(f: File)
      requires InRange(|f.lines|)
    {
      |Body(Selected(f), Lo(), withNumbers)| > WHOLE_FILE_BYTES
    }
  }

  /** None for a range that is not in the file. */
  function ReadLines(f: File, q: Request): Option<Reading> {
    if q.WholeFile() then
      if f.bytes > WHOLE_FILE_BYTES then
        Some(Reading(1, |Take(f.lines)|, true, Body(Take(f.lines), 1, true), true))
      else
        var body := Body(f.lines, 1, q.withNumbers);
        Some(Reading(1, |f.lines|, |body| > NOTICE_CHARS, body, q.withNumbers))
    else if !q.InRange(|f.lines|) then None
    else if q.Oversized(f) then
      var capped := Take(q.Selected(f));
      Some(Reading(q.Lo(), q.Lo() + |capped| - 1, true, Body(capped, q.Lo(), q.withNumbers), q.withNumbers))
    else
      Some(Reading(q.Lo(), q.Hi(|f.lines|), false, Body(q.Selected(f), q.Lo(), q.withNumbers), q.withNumbers))
  }

  predicate StartsWithNote(r: Reading) {
    r.noticed || "[NOTE:" <= r.body
  }

  /** The lines a successful read is credited with, judged by how its output begins. */
  function EffectiveRange(q: Request, r: Reading): Range {
    if q.WholeFile() then Range(1, if StartsWithNote(r) then SCOPED_LINES else UNBOUNDED_END)
    else if StartsWithNote(r) then Range(q.Lo(), q.Lo() + SCOPED_LINES - 1)
    else Range(q.Lo(), if q.end.None? then UNBOUNDED_END else Max(0, q.end.value))
  }

  /** A line of the file that is credited but was not shown. */
  ghost predicate OverCredited(f: File, q: Request, r: Reading, n: nat) {
    1 <= n <= |f.lines| && EffectiveRange(q, r).lo <= n <= EffectiveRange(q, r).hi && !(r.lo <= n <= r.hi)
  }

  lemma NumberedIsNoNote(lines: seq<string>, lo: nat)
    ensures !("[NOTE:" <= Body(lines, lo, true))
  {
    if lines != [] {
      var s := Body(lines, lo, true);
      assert s[0] == Decimal(lo)[0];
      assert "[NOTE:"[0] == '[';
    }
  }

  /** A read credits a line it did not show exactly when it asked for a range that
      stops short of both sixty lines and the end of the file, and either that
      range was too long to return or its own text begins like a notice. */
  lemma OverCreditIff(f: File, q: Request)
    requires ReadLines(f, q).Some?
    ensures (exists n: nat :: OverCredited(f, q, ReadLines(f, q).value, n)) <==>
            !q.WholeFile() && StopsShort(f, q) && LooksNoticed(f, q)
  {
    if q.WholeFile() {
      WholeFileCredit(f, q);
    } else if StopsShort(f, q) && LooksNoticed(f, q) {
      ShortNoticeOverCredits(f, q);
    } else {
      ScopedCredit(f, q);
    }
  }

  /** A range that ends before sixty lines and before the end of the file. */
  predicate StopsShort(f: File, q: Request) {
    q.Hi(|f.lines|) < Min(|f.lines|, q.Lo() + SCOPED_LINES - 1)
  }

  /** The range is too long to return, or its own text begins like a notice. */
  predicate LooksNoticed(f: File, q: Request)
    requires q.InRange(|f.lines|)
  {
    q.Oversized(f) || (!q.withNumbers && "[NOTE:" <= Body(q.Selected(f), q.Lo(), false))
  }

  lemma WholeFileCredit(f: File, q: Request)
    requires q.WholeFile()
    ensures forall n: nat :: !OverCredited(f, q, ReadLines(f, q).value, n)
  {
  }

  lemma ShortNoticeOverCredits(f: File, q: Request)
    requires !q.WholeFile() && q.InRange(|f.lines|) && StopsShort(f, q) && LooksNoticed(f, q)
    ensures var r := ReadLines(f, q).value; OverCredited(f, q, r, r.hi + 1)
  {
  }

  lemma NotedIffLooksNoticed(f: File, q: Request)
    requires !q.WholeFile() && q.InRange(|f.lines|)
    ensures StartsWithNote(ReadLines(f, q).value) <==> LooksNoticed(f, q)
  {
    NumberedIsNoNote(q.Selected(f), q.Lo());
  }

  lemma ScopedCredit(f: File, q: Request)
    requires !q.WholeFile() && q.InRange(|f.lines|) && !(StopsShort(f, q) && LooksNoticed(f, q))
    ensures forall n: nat :: !OverCredited(f, q, ReadLines(f, q).value, n)
  {
    NotedIffLooksNoticed(f, q);
  }

  // ----- What a read shows -----

  /** Line numbers are written in decimal. */
  lemma {:induction false} DecimalIsValue(n: nat)
    ensures AllDigits(Decimal(n)) && Value(Decimal(n)) == n
  {
    var s := Decimal(n);
    assert s[|s| - 1] as int - '0' as int == n % 10;
    if n >= 10 {
      DecimalIsValue(n / 10);
      assert s[..|s| - 1] == Decimal(n / 10);
    } else {
      assert s[..|s| - 1] == "";
    }
  }

  /** A text is its lines one after another, each after its number if they are
      numbered. */
  lemma {:induction false} BodyOfParts(a: seq<string>, b: seq<string>, lo: nat, numbered: bool)
    ensures Body(a + b, lo, numbered) == Body(a, lo, numbered) + Body(b, lo + |a|, numbered)
    decreases |a|
  {
    if a == [] {
      assert a + b == b;
    } else {
      assert (a + b)[0] == a[0] && (a + b)[1..] == a[1..] + b;
      BodyOfParts(a[1..], b, lo + 1, numbered);
    }
  }

  lemma BodyOfLine(line: string, lo: nat, numbered: bool)
    ensures Body([line], lo, numbered) == (if numbered then Decimal(lo) + ": " else "") + line
  {
    assert Body([], lo + 1, numbered) == "";
  }

  function First(q: Request): nat {
    if q.start.Some? && q.start.value > 1 then q.start.value else 1
  }

  function Last(q: Request, total: nat): int {
    if q.end.Some? && q.end.value < total then q.end.value else total
  }

  /** More than 24000 bytes for a whole file, more than 24000 characters for a range. */
  predicate TooMuch(f: File, q: Request) {
    if q.WholeFile() then f.bytes > 24_000
    else First(q) <= Last(q, |f.lines|) &&
         |Body(f.lines[First(q) - 1..Last(q, |f.lines|)], First(q), q.withNumbers)| > 24_000
  }

  /** The lines asked for, or the first sixty of them if they are too much, exactly
      as they are; the cut of a whole file is always numbered. */
  ghost predicate ShowsAsAsked(f: File, q: Request, r: Reading) {
    && r.lo == First(q)
    && r.hi == (if TooMuch(f, q) && Last(q, |f.lines|) > r.lo + 59 then r.lo + 59 else Last(q, |f.lines|))
    && r.numbered == (q.withNumbers || (q.WholeFile() && TooMuch(f, q)))
    && r.lo <= r.hi + 1 <= |f.lines| + 1
    && r.body == Body(f.lines[r.lo - 1..r.hi], r.lo, r.numbered)
    && (r.noticed <==> TooMuch(f, q) || (q.WholeFile() && |r.body| > 8_000))
  }

  lemma CutReadShows(f: File, q: Request, shown: seq<string>)
    requires q.WholeFile() && f.bytes > 24_000 && shown == Take(f.lines)
    ensures ReadLines(f, q) == Some(Reading(1, |shown|, true, Body(shown, 1, true), true))
    ensures shown == f.lines[0..|shown|] && |shown| == if |f.lines| > 60 then 60 else |f.lines|
  {
  }

  lemma FullReadShows(f: File, q: Request, body: string)
    requires q.WholeFile() && f.bytes <= 24_000 && body == Body(f.lines, 1, q.withNumbers)
    ensures ReadLines(f, q) == Some(Reading(1, |f.lines|, |body| > 8_000, body, q.withNumbers))
    ensures f.lines == f.lines[0..|f.lines|]
  {
  }

  lemma WholeReadShows(f: File, q: Request)
    requires q.WholeFile()
    ensures ShowsAsAsked(f, q, ReadLines(f, q).value)
  {
    if f.bytes > 24_000 {
      CutReadShows(f, q, Take(f.lines));
    } else {
      FullReadShows(f, q, Body(f.lines, 1, q.withNumbers));
    }
  }

  lemma ScopedReadShows(f: File, q: Request)
    requires !q.WholeFile() && q.InRange(|f.lines|)
    ensures ShowsAsAsked(f, q, ReadLines(f, q).value)
  {
    var lo, hi := First(q), Last(q, |f.lines|);
    assert q.Lo() == lo && q.Hi(|f.lines|) == hi;
    var selected := f.lines[lo - 1..hi];
    if q.Oversized(f) && |selected| > 60 {
      CutOfSlice(f.lines, lo - 1, hi);
    }
  }

  lemma CutOfSlice(lines: seq<string>, i: nat, j: nat)
    requires i + 60 <= j <= |lines|
    ensures lines[i..j][..60] == lines[i..i + 60]
  {
  }

  /** A read fails only for a range without a line of the file. */
  lemma ReadShows(f: File, q: Request)
    ensures ReadLines(f, q).None? <==> !q.WholeFile() && First(q) > Last(q, |f.lines|)
    ensures ReadLines(f, q).Some? ==> ShowsAsAsked(f, q, ReadLines(f, q).value)
  {
    if q.WholeFile() {
      WholeReadShows(f, q);
    } else if q.InRange(|f.lines|) {
      ScopedReadShows(f, q);
    }
  }

  /** A line that was shown but is not credited. */
  ghost predicate UnderCredited(q: Request, r: Reading, n: nat) {
    r.lo <= n <= r.hi && !(EffectiveRange(q, r).lo <= n <= EffectiveRange(q, r).hi)
  }

  /** A read is denied credit for a line it showed exactly if it showed more than
      sixty lines after a notice, or after text that begins like one, or lines past
      the first billion without an end to its range. */
  lemma UnderCreditIff(f: File, q: Request)
    requires ReadLines(f, q).Some?
    ensures var r := ReadLines(f, q).value;
            (exists n: nat :: UnderCredited(q, r, n)) <==>
            if r.noticed || "[NOTE:" <= r.body then r.hi > r.lo + 59
            else q.end.None? && r.lo <= r.hi && r.hi > 1_000_000_000
  {
    var r := ReadLines(f, q).value;
    ReadShows(f, q);
    CreditEnds(q, r, |f.lines|);
  }

  lemma CreditEnds(q: Request, r: Reading, total: nat)
    requires r.lo == First(q) && r.hi <= Last(q, total) && (q.WholeFile() || r.lo <= r.hi)
    ensures (exists n: nat :: UnderCredited(q, r, n)) <==>
            if r.noticed || "[NOTE:" <= r.body then r.hi > r.lo + 59
            else q.end.None? && r.lo <= r.hi && r.hi > 1_000_000_000
  {
    if r.lo <= r.hi && r.hi > EffectiveRange(q, r).hi {
      assert UnderCredited(q, r, r.hi);
    }
  }

  // ----- One coding attempt -----

  /** Files by resolved path; what was last read, and whether with line numbers,
      by the path string the call gave. */
  datatype Session = Session(files: map<string, File>, tracking: map<string, Range>, numbered: map<string, bool>)

  datatype Reason = PathNotPermitted | NotFound | InvalidArgs | SuspiciousShrink | WriteError
                  | MalformedDiff | StaleRead | ContentMismatch | PatchConflict | PatchError

  datatype Outcome = Refused(why: Reason) | Returned(reading: Reading) | Edited

  /** What git does with a patch, once it gets that far: the files it changes,
      with their new content, or None where it deletes one. */
  datatype Applied = Rejects | Raises | Patches(changes: map<string, Option<File>>)

  /** Where path strings lead; None outside the scratch directory. */
  type Resolver = string -> Option<string>

  function AfterRead(s: Session, resolve: Resolver, path: string, q: Request): (Session, Outcome) {
    var target := resolve(path);
    if target.None? then (s, Refused(PathNotPermitted))
    else if target.value !in s.files then (s, Refused(NotFound))
    else
      var r := ReadLines(s.files[target.value], q);
      if r.None? then (s, Refused(InvalidArgs))
      else (s.(tracking := s.tracking[path := EffectiveRange(q, r.value)],
               numbered := s.numbered[path := r.value.numbered]),
            Returned(r.value))
  }

  /** New content under a fifth of the old size. */
  predicate ShrinksTooMuch(s: Session, target: string, content: File) {
    target in s.files && s.files[target].bytes > 0 && 5 * content.bytes < s.files[target].bytes
  }

  function Apply(files: map<string, File>, changes: map<string, Option<File>>): map<string, File> {
    map k | k in files.Keys + changes.Keys && (k in changes ==> changes[k].Some?) ::
      if k in changes then changes[k].value else files[k]
  }

  /** Files change, and the credit of the path the call named goes. */
  function Edit(s: Session, path: string, files: map<string, File>): Session {
    s.(files := files, tracking := s.tracking - {path})
  }

  function AfterWrite(s: Session, resolve: Resolver, path: string, content: File, writes: bool): (Session, Outcome) {
    var target := resolve(path);
    if target.None? then (s, Refused(PathNotPermitted))
    else if ShrinksTooMuch(s, target.value, content) then (s, Refused(SuspiciousShrink))
    else if !writes then (s, Refused(WriteError))
    else (Edit(s, path, s.files[target.value := content]), Edited)
  }

  predicate Covers(s: Session, path: string, t: Range) {
    path in s.tracking && s.tracking[path].lo <= t.lo && t.hi <= s.tracking[path].hi
  }

  predicate LastReadNumbered(s: Session, path: string) {
    path in s.numbered && s.numbered[path]
  }

  /** The freshness gate: the last read covers the diff's lines, and if it was of
      the whole file it had line numbers. A diff without a header passes. */
  predicate IsFresh(s: Session, path: string, diff: seq<string>) {
    var t := TargetRange(diff);
    t.Some? ==> Covers(s, path, t.value) && (s.tracking[path] == Range(1, UNBOUNDED_END) ==> LastReadNumbered(s, path))
  }

  function Chomp(line: string): string {
    if line != [] && line[|line| - 1] == '\n' then line[..|line| - 1] else line
  }

  function Chomped(lines: seq<string>): (t: seq<string>)
    ensures |t| == |lines| && forall i :: 0 <= i < |t| ==> t[i] == Chomp(lines[i])
  {
    if lines == [] then [] else [Chomp(lines[0])] + Chomped(lines[1..])
  }

  ghost predicate HasDefect(diff: seq<string>) {
    exists n :: 0 <= n < |diff| && DefectAt(diff, n)
  }

  ghost function PatchOutcome(
    s: Session, resolve: Resolver, path: string, diff: seq<string>, applied: Applied): Outcome
  {
    var target := resolve(path);
    if target.None? then Refused(PathNotPermitted)
    else if HasDefect(diff) then Refused(MalformedDiff)
    else if !IsFresh(s, path, diff) then Refused(StaleRead)
    else if target.value !in s.files then Refused(NotFound)
    else if !PassesFidelity(diff, Chomped(s.files[target.value].lines), LastReadNumbered(s, path)) then
      Refused(ContentMismatch)
    else match applied
      case Rejects => Refused(PatchConflict)
      case Raises => Refused(PatchError)
      case Patches(_) => Edited
  }

  ghost function AfterPatch(
    s: Session, resolve: Resolver, path: string, diff: seq<string>, applied: Applied): (Session, Outcome)
  {
    var o := PatchOutcome(s, resolve, path, diff, applied);
    (if o.Edited? then Edit(s, path, Apply(s.files, applied.changes)) else s, o)
  }

  /** The tools a coding attempt calls, and the context they keep. */
  class CoderTools {
    const resolve: Resolver
    var files: map<string, File>
    var tracking: map<string, Range>
    var numbered: map<string, bool>

    constructor (resolve: Resolver, files: map<string, File>)
      ensures this.resolve == resolve && State() == Session(files, map[], map[])
    {
      this.resolve, this.files := resolve, files;
      tracking, numbered := map[], map[];
    }

    ghost function State(): Session
      reads this
    {
      Session(files, tracking, numbered)
    }

    method ReadFile(path: string, q: Request) returns (o: Outcome)
      modifies this
      ensures (State(), o) == AfterRead(old(State()), resolve, path, q)
    {
      var target := resolve(path);
      if target.None? {
        return Refused(PathNotPermitted);
      }
      if target.value !in files {
        return Refused(NotFound);
      }
      var r := ReadLines(files[target.value], q);
      if r.None? {
        return Refused(InvalidArgs);
      }
      TrackRead(path, q, r.value);
      o := Returned(r.value);
    }

    method TrackRead(path: string, q: Request, r: Reading)
      modifies this`tracking, this`numbered
      ensures tracking == old(tracking)[path := EffectiveRange(q, r)]
      ensures numbered == old(numbered)[path := r.numbered]
    {
      tracking := tracking[path := EffectiveRange(q, r)];
      numbered := numbered[path := r.numbered];
    }

    method WriteFile(path: string, content: File, writes: bool) returns (o: Outcome)
      modifies this
      ensures (State(), o) == AfterWrite(old(State()), resolve, path, content, writes)
    {
      var target := resolve(path);
      if target.None? {
        return Refused(PathNotPermitted);
      }
      if target.value in files {
        var currentSize := files[target.value].bytes;
        if currentSize > 0 && 5 * content.bytes < currentSize {
          return Refused(SuspiciousShrink);
        }
      }
      if !writes {
        return Refused(WriteError);
      }
      files := files[target.value := content];
      tracking := tracking - {path};
      o := Edited;
    }

    /** Git is given the normalized diff, and nothing else of the call. */
    method PatchFile(path: string, diff: seq<string>, gitApply: seq<string> -> Applied) returns (o: Outcome)
      modifies this
      ensures var target := resolve(path);
              var applied := if target.Some? then gitApply(Normalize(diff, target.value)) else Rejects;
              (State(), o) == AfterPatch(old(State()), resolve, path, diff, applied)
    {
      var target := resolve(path);
      if target.None? {
        return Refused(PathNotPermitted);
      }
      var formatDefect := FindDiffFormatDefect(diff);
      if formatDefect.Some? {
        return Refused(MalformedDiff);
      }
      var targetRange := DiffTargetRange(diff);
      if targetRange.Some? {
        if !(path in tracking && tracking[path].lo <= targetRange.value.lo &&
            targetRange.value.hi <= tracking[path].hi) {
          return Refused(StaleRead);
        }
        if tracking[path] == Range(1, UNBOUNDED_END) && !(path in numbered && numbered[path]) {
          return Refused(StaleRead);
        }
      }
      if target.value !in files {
        return Refused(NotFound);
      }
      var positionTrustworthy := path in numbered && numbered[path];
      var passes := CheckContentFidelity(diff, Chomped(files[target.value].lines), positionTrustworthy);
      if !passes {
        return Refused(ContentMismatch);
      }
      var normalized := NormalizeDiffHeaders(diff, target.value);
      match gitApply(normalized) {
        case Rejects => return Refused(PatchConflict);
        case Raises => return Refused(PatchError);
        case Patches(changes) =>
          files := Apply(files, changes);
          tracking := tracking - {path};
          o := Edited;
      }
    }
  }

  // ----- What the tools answer -----

  /** A file's lines are compared without their ends. */
  lemma ChompIff(line: string)
    ensures Chomp(line + "\n") == line
    ensures line == "" || line[|line| - 1] != '\n' ==> Chomp(line) == line
  {
  }

  /** Every answer of a read; a successful one is recorded for its path and no other. */
  lemma ReadIff(s: Session, resolve: Resolver, path: string, q: Request)
    ensures var (next, o) := AfterRead(s, resolve, path, q);
            var there := resolve(path).Some? && resolve(path).value in s.files;
            && (o == Refused(PathNotPermitted) <==> resolve(path).None?)
            && (o == Refused(NotFound) <==> resolve(path).Some? && resolve(path).value !in s.files)
            && (o == Refused(InvalidArgs) <==> there && ReadLines(s.files[resolve(path).value], q).None?)
            && (o.Returned? <==> there && ReadLines(s.files[resolve(path).value], q).Some?)
            && (o.Returned? ==> ReadLines(s.files[resolve(path).value], q) == Some(o.reading))
            && next.files == s.files && (!o.Returned? ==> next == s)
            && (o.Returned? ==>
                  && path in next.tracking && next.tracking[path] == EffectiveRange(q, o.reading)
                  && path in next.numbered && next.numbered[path] == o.reading.numbered
                  && next.tracking - {path} == s.tracking - {path} && next.numbered - {path} == s.numbered - {path})
  {
  }

  /** Applying changes exactly the files named, deletions included. */
  lemma ApplyIff(files: map<string, File>, changes: map<string, Option<File>>, target: string)
    ensures Entry(Apply(files, changes), target) ==
            if target in changes then changes[target] else Entry(files, target)
  {
  }

  /** Every answer of a write: it is refused outside the directory, or for content
      under a fifth of what a file that is not empty holds. */
  lemma WriteIff(s: Session, resolve: Resolver, path: string, content: File, writes: bool)
    ensures var (next, o) := AfterWrite(s, resolve, path, content, writes);
            && (o == Refused(PathNotPermitted) <==> resolve(path).None?)
            && (o == Refused(SuspiciousShrink) <==>
                resolve(path).Some? && resolve(path).value in s.files &&
                0 < s.files[resolve(path).value].bytes && 5 * content.bytes < s.files[resolve(path).value].bytes)
            && (o == Edited <==> resolve(path).Some? && o != Refused(SuspiciousShrink) && writes)
            && (o == Edited ==> next.files == s.files[resolve(path).value := content] && path !in next.tracking)
            && (o != Edited ==> next == s)
  {
  }

  /** Some hunk starts before the lines credited or ends after them. */
  ghost predicate ReachesOutside(diff: seq<string>, credit: Range) {
    exists h :: h in Hunks(diff) && (h.start < credit.lo || h.start + |h.old_| - 1 > credit.hi || h.start > credit.hi)
  }

  lemma OutsideIff(diff: seq<string>, credit: Range)
    requires TargetRange(diff).Some?
    ensures ReachesOutside(diff, credit) <==>
            !(credit.lo <= TargetRange(diff).value.lo && TargetRange(diff).value.hi <= credit.hi)
  {
    ComparedLinesAreInRange(diff);
    var t := TargetRange(diff).value;
    var a :| a in Hunks(diff) && a.start == t.lo;
    var b :| b in Hunks(diff) && HunkLast(b) == t.hi;
  }

  /** The freshness gate: a diff with a hunk needs a recorded read that covers all its
      hunks, and one of the whole file needs line numbers. */
  lemma StaleIff(s: Session, path: string, diff: seq<string>)
    ensures !IsFresh(s, path, diff) <==>
            Hunks(diff) != [] &&
            (path !in s.tracking || ReachesOutside(diff, s.tracking[path]) ||
             (s.tracking[path] == Range(1, 1_000_000_000) && !(path in s.numbered && s.numbered[path])))
  {
    ComparedLinesAreInRange(diff);
    if TargetRange(diff).Some? && path in s.tracking {
      OutsideIff(diff, s.tracking[path]);
    }
  }

  /** Every answer of a patch, in the order in which the gates come. */
  lemma PatchIff(s: Session, resolve: Resolver, path: string, diff: seq<string>, applied: Applied)
    ensures var o := PatchOutcome(s, resolve, path, diff, applied);
            var inside := resolve(path).Some?;
            var formed := inside && !HasDefect(diff);
            var recent := formed && IsFresh(s, path, diff);
            var there := recent && resolve(path).value in s.files;
            var strict := path in s.numbered && s.numbered[path];
            var faithful :=
              there && PassesFidelity(diff, Chomped(s.files[resolve(path).value].lines), strict);
            && (o == Refused(PathNotPermitted) <==> !inside)
            && (o == Refused(MalformedDiff) <==> inside && !formed)
            && (o == Refused(StaleRead) <==> formed && !recent)
            && (o == Refused(NotFound) <==> recent && !there)
            && (o == Refused(ContentMismatch) <==> there && !faithful)
            && (o == Refused(PatchConflict) <==> faithful && applied.Rejects?)
            && (o == Refused(PatchError) <==> faithful && applied.Raises?)
            && (o == Edited <==> faithful && applied.Patches?)
  {
  }

  // ----- Over a whole attempt -----

  datatype Call = Read(path: string, q: Request)
                | Write(path: string, content: File, writes: bool)
                | Patch(path: string, diff: seq<string>, applied: Applied)

  ghost function After(s: Session, resolve: Resolver, c: Call): (Session, Outcome) {
    match c
    case Read(path, q) => AfterRead(s, resolve, path, q)
    case Write(path, content, writes) => AfterWrite(s, resolve, path, content, writes)
    case Patch(path, diff, applied) => AfterPatch(s, resolve, path, diff, applied)
  }

  /** What a read that was recorded for a path saw. */
  datatype Sighting = Sighting(file: File, q: Request)

  /** A session with what its recorded reads saw, and the tracked paths whose file
      was changed since by a call that named another path. */
  datatype Log = Log(s: Session, seen: map<string, Sighting>, stale: set<string>)

  function Entry(files: map<string, File>, target: string): Option<File> {
    if target in files then Some(files[target]) else None
  }

  /** The tracked paths whose file changed, save the one the call named. */
  ghost function MadeStale(s: Session, next: Session, resolve: Resolver, path: string): set<string> {
    set p | p in s.tracking && p != path && resolve(p).Some? &&
            Entry(s.files, resolve(p).value) != Entry(next.files, resolve(p).value)
  }

  ghost function Logged(log: Log, resolve: Resolver, c: Call): Log {
    var (s, o) := After(log.s, resolve, c);
    if c.Read? && o.Returned? then
      Log(s, log.seen[c.path := Sighting(log.s.files[resolve(c.path).value], c.q)], log.stale - {c.path})
    else if o.Edited? then Log(s, log.seen, log.stale + MadeStale(log.s, s, resolve, c.path))
    else log
  }

  ghost function Run(log: Log, resolve: Resolver, calls: seq<Call>): Log
    decreases |calls|
  {
    if calls == [] then log else Run(Logged(log, resolve, calls[0]), resolve, calls[1..])
  }

  /** What is tracked for `p` is what its last recorded read was credited with, and
      the file is still the one that read saw. */
  ghost predicate TrackedAt(log: Log, resolve: Resolver, p: string)
    requires p in log.s.tracking
  {
    && p in log.seen && p in log.s.numbered && resolve(p).Some?
    && (var seen := log.seen[p];
        var r := ReadLines(seen.file, seen.q);
        && r.Some?
        && log.s.tracking[p] == EffectiveRange(seen.q, r.value)
        && log.s.numbered[p] == r.value.numbered
        && (p !in log.stale ==> resolve(p).value in log.s.files && log.s.files[resolve(p).value] == seen.file))
  }

  ghost predicate Tracked(log: Log, resolve: Resolver) {
    forall p :: p in log.s.tracking ==> TrackedAt(log, resolve, p)
  }

  lemma CallKeepsTracked(log: Log, resolve: Resolver, c: Call)
    requires Tracked(log, resolve)
    ensures Tracked(Logged(log, resolve, c), resolve)
  {
    var next := Logged(log, resolve, c);
    forall p | p in next.s.tracking ensures TrackedAt(next, resolve, p) {
      if p in log.s.tracking {
        assert TrackedAt(log, resolve, p);
      }
    }
  }

  /** In every run of reads, writes and patches, each tracked path still names the
      content its last recorded read saw, unless the file was changed by a call
      that named another path. */
  lemma {:induction false} RunKeepsTracked(log: Log, resolve: Resolver, calls: seq<Call>)
    requires Tracked(log, resolve)
    ensures Tracked(Run(log, resolve, calls), resolve)
    decreases |calls|
  {
    if calls != [] {
      CallKeepsTracked(log, resolve, calls[0]);
      RunKeepsTracked(Logged(log, resolve, calls[0]), resolve, calls[1..]);
    }
  }

  /** Every file the calls touch is named by one path string. */
  ghost predicate OneSpelling(resolve: Resolver, paths: set<string>) {
    forall p, q :: p in paths && q in paths && resolve(p) == resolve(q) && resolve(p).Some? ==> p == q
  }

  // ----- When nothing goes stale -----

  /** The files git may change for a diff it is given. */
  type Git = seq<string> -> set<string>

  /** Git learns which files to change from the lines that name them. */
  ghost predicate ReadsNames(git: Git) {
    forall lines, rel :: NamesOnly(lines, rel) ==> git(lines) <= {rel}
  }

  /** What a patch changed is what git may change for its normalized diff. */
  ghost predicate AppliedBy(git: Git, resolve: Resolver, c: Call) {
    c.Patch? && c.applied.Patches? && resolve(c.path).Some? ==>
      c.applied.changes.Keys <= git(Normalize(c.diff, resolve(c.path).value))
  }

  /** The diff, once normalized, names the file the call is for and no other. */
  predicate ForOneFile(resolve: Resolver, path: string, diff: seq<string>) {
    resolve(path).Some? ==> NamesOnly(Normalize(diff, resolve(path).value), resolve(path).value)
  }

  /** Every tracked path but the call's own is for another file, and if there is
      one, a patch names the file of its own path only. */
  ghost predicate Guarded(s: Session, resolve: Resolver, c: Call) {
    forall p :: p in s.tracking && p != c.path && resolve(p).Some? ==>
      resolve(p) != resolve(c.path) && (c.Patch? ==> ForOneFile(resolve, c.path, c.diff))
  }

  lemma GuardedStaysFresh(s: Session, resolve: Resolver, git: Git, c: Call)
    requires Guarded(s, resolve, c) && ReadsNames(git) && AppliedBy(git, resolve, c)
    ensures MadeStale(s, After(s, resolve, c).0, resolve, c.path) == {}
  {
    var (next, o) := After(s, resolve, c);
    forall p | p in s.tracking && p != c.path && resolve(p).Some?
      ensures Entry(s.files, resolve(p).value) == Entry(next.files, resolve(p).value)
    {
      if c.Patch? && o.Edited? {
        assert NamesOnly(Normalize(c.diff, resolve(c.path).value), resolve(c.path).value);
        assert resolve(p).value !in c.applied.changes;
      }
    }
  }

  /** A normalized diff names the file it was normalized for, so no other alone. */
  lemma NormalizedNamesOwn(diff: seq<string>, rel: string, other: string)
    requires NamesOnly(Normalize(diff, rel), other)
    ensures other == rel
  {
    var n := Normalize(diff, rel);
    NormalizeIsNormalized(diff, rel);
    var i := OldHeaderAt(diff, rel);
    assert Names(n[i], other);
    assert n[i][0] == '-' && OldHeader(rel)[6..] == rel && OldHeader(other)[6..] == other;
  }

  lemma {:induction false} FirstExists(lines: seq<string>, mark: string, n: nat) returns (i: nat)
    requires n < |lines| && mark <= lines[n]
    ensures FirstOf(lines, mark, i)
  {
    if j: nat :| j < n && mark <= lines[j] {
      i := FirstExists(lines, mark, j);
    } else {
      i := n;
    }
  }

  lemma OldHeaderAt(diff: seq<string>, rel: string) returns (i: nat)
    ensures i < |Normalize(diff, rel)| && Normalize(diff, rel)[i] == OldHeader(rel)
  {
    if HasLine(diff, "--- ") && HasLine(diff, "+++ ") {
      NormalizeIsNormalized(diff, rel);
      var n :| 0 <= n < |diff| && "--- " <= diff[n];
      i := FirstExists(diff, "--- ", n);
      assert NormalLine(diff, rel, i, Normalize(diff, rel)[i]);
    } else {
      i := 0;
    }
  }

  /** A git that changes `file` for the diff `n` and nothing for any other. */
  function Changing(n: seq<string>, file: string): Git {
    lines => if lines == n then {file} else {}
  }

  /** Some change of a file: a deletion, or a new empty file. */
  function Otherwise(f: Option<File>): Option<File> {
    if f.Some? then None else Some(File([], 0))
  }

  lemma UnguardedGoesStale(s: Session, resolve: Resolver, path: string, diff: seq<string>, p: string)
    requires PatchOutcome(s, resolve, path, diff, Patches(map[])) == Edited
    requires p in s.tracking && p != path && resolve(p).Some?
    requires resolve(p) == resolve(path) || !ForOneFile(resolve, path, diff)
    ensures var file := resolve(p).value;
            var git := Changing(Normalize(diff, resolve(path).value), file);
            var c := Patch(path, diff, Patches(map[file := Otherwise(Entry(s.files, file))]));
            ReadsNames(git) && AppliedBy(git, resolve, c) && p in MadeStale(s, After(s, resolve, c).0, resolve, path)
  {
    var rel, file := resolve(path).value, resolve(p).value;
    forall lines, other | NamesOnly(lines, other)
      ensures Changing(Normalize(diff, rel), file)(lines) <= {other}
    {
      if lines == Normalize(diff, rel) {
        NormalizedNamesOwn(diff, rel, other);
      }
    }
    var c := Patch(path, diff, Patches(map[file := Otherwise(Entry(s.files, file))]));
    assert After(s, resolve, c).1 == Edited;
    assert Entry(After(s, resolve, c).0.files, file) == Otherwise(Entry(s.files, file));
  }

  /** Whatever the patch changes, it makes no tracked path stale. */
  ghost predicate NeverStale(s: Session, resolve: Resolver, git: Git, path: string, diff: seq<string>) {
    forall changes :: AppliedBy(git, resolve, Patch(path, diff, Patches(changes))) ==>
      MadeStale(s, After(s, resolve, Patch(path, diff, Patches(changes))).0, resolve, path) == {}
  }

  /** Once a patch is past the gates, it makes no tracked path stale under any git
      that learns its files from the lines that name them if and only if the call
      is guarded: every other tracked path is for another file, and if there is
      one, the normalized diff names no other file. */
  lemma PatchStaysFreshIff(s: Session, resolve: Resolver, path: string, diff: seq<string>)
    requires PatchOutcome(s, resolve, path, diff, Patches(map[])) == Edited
    ensures (forall git :: ReadsNames(git) ==> NeverStale(s, resolve, git, path, diff)) <==>
            Guarded(s, resolve, Patch(path, diff, Rejects))
  {
    if Guarded(s, resolve, Patch(path, diff, Rejects)) {
      forall git, changes | ReadsNames(git) && AppliedBy(git, resolve, Patch(path, diff, Patches(changes)))
        ensures MadeStale(s, After(s, resolve, Patch(path, diff, Patches(changes))).0, resolve, path) == {}
      {
        GuardedStaysFresh(s, resolve, git, Patch(path, diff, Patches(changes)));
      }
    } else {
      var p :| p in s.tracking && p != path && resolve(p).Some? &&
        (resolve(p) == resolve(path) || !ForOneFile(resolve, path, diff));
      UnguardedGoesStale(s, resolve, path, diff, p);
      var file := resolve(p).value;
      assert !NeverStale(s, resolve, Changing(Normalize(diff, resolve(path).value), file), path, diff);
    }
  }

  /** Writing new content makes no tracked path stale, whatever the content, if and
      only if no tracked path is another spelling of the one written. */
  lemma WriteStaysFreshIff(s: Session, resolve: Resolver, path: string)
    requires resolve(path).Some?
    ensures (forall content, writes ::
               MadeStale(s, AfterWrite(s, resolve, path, content, writes).0, resolve, path) == {})
            <==> forall p :: p in s.tracking && p != path ==> resolve(p) != resolve(path)
  {
    var target := resolve(path).value;
    var content := File([""], if target in s.files then s.files[target].bytes + 1 else 0);
    assert AfterWrite(s, resolve, path, content, true).1 == Edited;
    forall p | p in s.tracking && p != path && resolve(p) == resolve(path)
      ensures p in MadeStale(s, AfterWrite(s, resolve, path, content, true).0, resolve, path)
    {
    }
  }

  /** Over a whole attempt: with one path string a file and patches that name one
      file each, nothing tracked ever goes stale. */
  lemma {:induction false} GuardedRunStaysFresh(
    log: Log, resolve: Resolver, git: Git, calls: seq<Call>, paths: set<string>)
    requires OneSpelling(resolve, paths) && log.s.tracking.Keys <= paths && log.stale == {} && ReadsNames(git)
    requires forall c :: c in calls ==>
               c.path in paths && AppliedBy(git, resolve, c) && (c.Patch? ==> ForOneFile(resolve, c.path, c.diff))
    ensures Run(log, resolve, calls).stale == {}
    decreases |calls|
  {
    if calls != [] {
      var c := calls[0];
      assert c in calls && forall d :: d in calls[1..] ==> d in calls;
      GuardedCallStaysFresh(log, resolve, git, c, paths);
      GuardedRunStaysFresh(Logged(log, resolve, c), resolve, git, calls[1..], paths);
    }
  }

  lemma GuardedCallStaysFresh(log: Log, resolve: Resolver, git: Git, c: Call, paths: set<string>)
    requires OneSpelling(resolve, paths) && log.s.tracking.Keys <= paths && log.stale == {} && ReadsNames(git)
    requires c.path in paths && AppliedBy(git, resolve, c) && (c.Patch? ==> ForOneFile(resolve, c.path, c.diff))
    ensures Logged(log, resolve, c).stale == {} && Logged(log, resolve, c).s.tracking.Keys <= paths
  {
    GuardedStaysFresh(log.s, resolve, git, c);
  }

  // ----- A patch for two files -----

  /** A one-line change of the file `x`, and a section for `y` after it. */
  function TwoSections(
    x: string, kept: string, changed: string, y: string, header: string, body: seq<string>): seq<string>
  {
    ["diff --git a/" + x + " b/" + x, OldHeader(x), NewHeader(x), "@@ -1 +1 @@", "-" + kept, "+" + changed,
     "diff --git a/" + y + " b/" + y, OldHeader(y), NewHeader(y), header] + body
  }

  /** The second section starts below the only line of `x`, with marked lines only. */
  predicate IsSecondSection(header: string, body: seq<string>) {
    && ParseHeader(header).Some? && 1 < ParseHeader(header).value
    && ParseHeader(header).value + |body| <= UNBOUNDED_END
    && forall i :: 0 <= i < |body| ==> IsMarked(body[i]) && !Opens(body[i], false)
  }

  lemma ParsesOne()
    ensures ParseHeader("@@ -1 +1 @@") == Some(1)
  {
    var line := "@@ -1 +1 @@";
    assert line[4..] == "1 +1 @@" && "1 +1 @@"[1..] == " +1 @@";
    assert Number("1 +1 @@", 0) == Number(" +1 @@", 1) == (1, " +1 @@");
    assert " +1 @@"[2..] == "1 @@" && "1 @@"[1..] == " @@";
    assert Number("1 @@", 0) == Number(" @@", 1) == (1, " @@");
  }

  lemma {:induction false} BodyToEnd(lines: seq<string>, i: nat)
    requires i <= |lines| && forall j :: i <= j < |lines| ==> !Opens(lines[j], false)
    ensures BodyEnd(lines, i, false) == |lines| && |OldSide(lines, i, false)| <= |lines| - i
    decreases |lines| - i
  {
    if i < |lines| {
      BodyToEnd(lines, i + 1);
    }
  }

  lemma MarkedOld(mark: char, text: string)
    requires mark != '@'
    ensures !Opens([mark] + text, true) && ParseHeader([mark] + text).None?
    ensures IfOld([mark] + text) == if mark == ' ' || mark == '-' then [(mark, text)] else []
  {
    var line := [mark] + text;
    HeadersStartHunks(line);
    assert line[0] == mark && line[1..] == text;
  }

  lemma BodyStep(lines: seq<string>, i: nat, mark: char, text: string)
    requires i < |lines| && lines[i] == [mark] + text && mark != '@'
    ensures BodyEnd(lines, i, false) == BodyEnd(lines, i + 1, false)
    ensures OldSide(lines, i, false) ==
            (if mark == ' ' || mark == '-' then [(mark, text)] else []) + OldSide(lines, i + 1, false)
  {
    MarkedOld(mark, text);
    assert !Opens(lines[i], false);
  }

  /** The walks read the headers of the second section as a line removed below the
      end of the first file. */
  lemma FirstBody(d: seq<string>, kept: string, changed: string, git: string, old_: string, new_: string)
    requires |d| > 9 && d[4] == ['-'] + kept && d[5] == ['+'] + changed
    requires d[6] == ['d'] + git && d[7] == ['-'] + old_ && d[8] == ['+'] + new_ && Opens(d[9], false)
    ensures BodyEnd(d, 4, false) == 9
    ensures OldSide(d, 4, false) == [('-', kept), ('-', old_)]
  {
    assert OldSide(d, 9, false) == [] && BodyEnd(d, 9, false) == 9;
    BodyStep(d, 8, '+', new_);
    BodyStep(d, 7, '-', old_);
    BodyStep(d, 6, 'd', git);
    BodyStep(d, 5, '+', changed);
    BodyStep(d, 4, '-', kept);
  }

  lemma TwoHunks(d: seq<string>)
    requires |d| > 9 && ParseHeader(d[0]).None? && ParseHeader(d[1]).None? && ParseHeader(d[2]).None?
    requires ParseHeader(d[3]).Some? && BodyEnd(d, 4, false) == 9
    requires ParseHeader(d[9]).Some? && BodyEnd(d, 10, false) == |d|
    ensures Hunks(d) == [HunkAt(d, 3), HunkAt(d, 9)]
  {
    HunksStep(d, 9);
    assert HunksFrom(d, |d|) == [];
    assert HunksFrom(d, 9) == [HunkAt(d, 9)];
    HunksStep(d, 3);
    assert HunksFrom(d, 3) == [HunkAt(d, 3)] + [HunkAt(d, 9)];
    HunksStep(d, 2);
    HunksStep(d, 1);
    HunksStep(d, 0);
  }

  lemma NoHeaders(d: seq<string>, git: string, old_: string, new_: string)
    requires |d| > 2 && d[0] == ['d'] + git && d[1] == ['-'] + old_ && d[2] == ['+'] + new_
    ensures ParseHeader(d[0]).None? && ParseHeader(d[1]).None? && ParseHeader(d[2]).None?
  {
    MarkedOld('d', git);
    MarkedOld('-', old_);
    MarkedOld('+', new_);
  }

  /** The lines of a two-section diff, with what its name lines go on with. */
  ghost predicate Sections(
    d: seq<string>, names: seq<string>, kept: string, changed: string, header: string, body: seq<string>)
  {
    && |names| == 6 && |d| == 10 + |body|
    && d[0] == ['d'] + names[0] && d[1] == ['-'] + names[1] && d[2] == ['+'] + names[2]
    && d[3] == "@@ -1 +1 @@" && d[4] == ['-'] + kept && d[5] == ['+'] + changed
    && d[6] == ['d'] + names[3] && d[7] == ['-'] + names[4] && d[8] == ['+'] + names[5]
    && d[9] == header && forall j :: 10 <= j < |d| ==> d[j] == body[j - 10]
  }

  lemma TwoSectionsLines(x: string, kept: string, changed: string, y: string, header: string, body: seq<string>)
    ensures var names := ["iff --git a/" + x + " b/" + x, "-- a/" + x, "++ b/" + x,
                          "iff --git a/" + y + " b/" + y, "-- a/" + y, "++ b/" + y];
            Sections(TwoSections(x, kept, changed, y, header, body), names, kept, changed, header, body)
  {
  }

  lemma HunksOfSections(
    d: seq<string>, names: seq<string>, kept: string, changed: string, header: string, body: seq<string>)
    requires Sections(d, names, kept, changed, header, body) && IsSecondSection(header, body)
    ensures Hunks(d) == [Hunk(1, [('-', kept), ('-', names[4])]), HunkAt(d, 9)]
    ensures |HunkAt(d, 9).old_| <= |body|
  {
    NoHeaders(d, names[0], names[1], names[2]);
    ParsesOne();
    HeadersStartHunks(header);
    FirstBody(d, kept, changed, names[3], names[4], names[5]);
    BodyToEnd(d, 10);
    TwoHunks(d);
  }

  lemma HunksOfTwo(x: string, kept: string, changed: string, y: string, header: string, body: seq<string>)
    requires IsSecondSection(header, body)
    ensures var hunks := Hunks(TwoSections(x, kept, changed, y, header, body));
            && |hunks| == 2 && hunks[0] == Hunk(1, [('-', kept), ('-', "-- a/" + y)])
            && hunks[1].start == ParseHeader(header).value && |hunks[1].old_| <= |body|
  {
    TwoSectionsLines(x, kept, changed, y, header, body);
    var names := ["iff --git a/" + x + " b/" + x, "-- a/" + x, "++ b/" + x,
                  "iff --git a/" + y + " b/" + y, "-- a/" + y, "++ b/" + y];
    HunksOfSections(TwoSections(x, kept, changed, y, header, body), names, kept, changed, header, body);
  }

  lemma TwoSectionsAreFormed(x: string, kept: string, changed: string, y: string, header: string, body: seq<string>)
    requires IsSecondSection(header, body)
    ensures !HasDefect(TwoSections(x, kept, changed, y, header, body))
  {
    var d := TwoSections(x, kept, changed, y, header, body);
    HeadersStartHunks(header);
    assert !InHunk(d, 0);
    assert IsFileHeader(d[1]) && IsFileHeader(d[2]) && IsFileHeader(d[6]) && IsFileHeader(d[7]) && IsFileHeader(d[8]);
    assert d[4][0] == '-' && d[5][0] == '+' && Opens(d[3], true) && Opens(d[9], true);
    assert forall j :: 10 <= j < |d| ==> d[j] == body[j - 10];
  }

  lemma TwoSectionsAreFaithful(x: string, kept: string, changed: string, y: string, header: string, body: seq<string>)
    requires IsSecondSection(header, body)
    ensures PassesFidelity(TwoSections(x, kept, changed, y, header, body), [kept], true)
  {
    HunksOfTwo(x, kept, changed, y, header, body);
    var hunks := Hunks(TwoSections(x, kept, changed, y, header, body));
    assert HunkFaithful(hunks[0], [kept], 2) && HunkFaithful(hunks[1], [kept], |hunks[1].old_|);
    forall h | h in hunks ensures HunkFaithful(h, [kept], |h.old_|) {
      var i :| 0 <= i < 2 && hunks[i] == h;
    }
  }

  lemma TwoSectionsAreCovered(x: string, kept: string, changed: string, y: string, header: string, body: seq<string>)
    requires IsSecondSection(header, body)
    ensures var t := TargetRange(TwoSections(x, kept, changed, y, header, body));
            t.Some? && 1 <= t.value.lo && t.value.hi <= UNBOUNDED_END
  {
    var d := TwoSections(x, kept, changed, y, header, body);
    HunksOfTwo(x, kept, changed, y, header, body);
    ComparedLinesAreInRange(d);
    var hunks, t := Hunks(d), TargetRange(d).value;
    forall h | h in hunks ensures 1 <= h.start && HunkLast(h) <= UNBOUNDED_END {
      var i :| 0 <= i < 2 && hunks[i] == h;
    }
  }

  lemma TwoSectionsNameBoth(x: string, kept: string, changed: string, y: string, header: string, body: seq<string>)
    requires x != y
    ensures !NamesOnly(Normalize(TwoSections(x, kept, changed, y, header, body), x), x)
  {
    var d := TwoSections(x, kept, changed, y, header, body);
    NormalizedNamesIff(d, x);
    assert "--- " <= d[1] && "--- " <= d[7] && OldHeader(x)[6..] == x && OldHeader(y)[6..] == y;
    assert d[7][0] == '-';
    assert !Rewritten(d, 7) && !Names(d[7], x);
  }

  /** A patch with a section for a second file passes every gate of the first: the
      format check, the freshness gate after a numbered read of the whole one-line
      file, and the strict fidelity check. If git changes the second file, what was
      read of it is stale, and its credit stands. */
  lemma TwoSectionsSlipThrough(
    s: Session, resolve: Resolver, path: string, other: string, changed: string, header: string, body: seq<string>,
    changes: map<string, Option<File>>)
    requires resolve(path).Some? && resolve(other).Some? && resolve(path) != resolve(other)
    requires path in s.tracking && s.tracking[path] == Range(1, UNBOUNDED_END) && LastReadNumbered(s, path)
    requires resolve(path).value in s.files && |s.files[resolve(path).value].lines| == 1
    requires IsSecondSection(header, body)
    ensures var x, y := resolve(path).value, resolve(other).value;
            var d := TwoSections(x, Chomp(s.files[x].lines[0]), changed, y, header, body);
            var c := Patch(path, d, Patches(changes));
            var (next, o) := After(s, resolve, c);
            && o == Edited && !ForOneFile(resolve, path, d)
            && (other in s.tracking && y in changes && changes[y] != Entry(s.files, y) ==>
                  && other in MadeStale(s, next, resolve, path)
                  && other in next.tracking && next.tracking[other] == s.tracking[other])
  {
    var x, y := resolve(path).value, resolve(other).value;
    var kept := Chomp(s.files[x].lines[0]);
    var d := TwoSections(x, kept, changed, y, header, body);
    TwoSectionsAreFormed(x, kept, changed, y, header, body);
    TwoSectionsAreFaithful(x, kept, changed, y, header, body);
    TwoSectionsAreCovered(x, kept, changed, y, header, body);
    TwoSectionsNameBoth(x, kept, changed, y, header, body);
    assert Chomped(s.files[x].lines) == [kept];
    assert PatchOutcome(s, resolve, path, d, Patches(changes)) == Edited;
    OtherGoesStale(s, resolve, path, other, d, changes);
  }

  lemma OtherGoesStale(
    s: Session, resolve: Resolver, path: string, other: string, diff: seq<string>, changes: map<string, Option<File>>)
    requires PatchOutcome(s, resolve, path, diff, Patches(changes)) == Edited
    requires resolve(other).Some? && resolve(other) != resolve(path)
    ensures var next := After(s, resolve, Patch(path, diff, Patches(changes))).0;
            var y := resolve(other).value;
            other in s.tracking && y in changes && changes[y] != Entry(s.files, y) ==>
              && other in MadeStale(s, next, resolve, path)
              && other in next.tracking && next.tracking[other] == s.tracking[other]
  {
  }

  // ----- What an accepted patch rests on -----

  /** The old-file line `n` is quoted by the diff as `text`. */
  ghost predicate Quotes(diff: seq<string>, n: int, text: string) {
    exists h: Hunk, k: nat :: h in Hunks(diff) && k < |h.old_| && n == h.start + k && h.old_[k].1 == text
  }

  /** An accepted patch with a header, to a tracked path that is not stale:
      the file is the one the recorded read saw, every old line of the diff that
      is a line of the file was shown by that read unless it over-credited, and
      if the read had line numbers the diff quotes those lines exactly. */
  lemma AcceptedPatchQuotesShownLines(log: Log, resolve: Resolver, path: string, diff: seq<string>, applied: Applied)
    requires Tracked(log, resolve) && path !in log.stale && TargetRange(diff).Some?
    requires PatchOutcome(log.s, resolve, path, diff, applied) == Edited
    ensures path in log.s.tracking && path in log.seen && ReadLines(log.seen[path].file, log.seen[path].q).Some?
    ensures var f := log.seen[path].file;
            var r := ReadLines(f, log.seen[path].q).value;
            && log.s.files[resolve(path).value] == f
            && forall n: nat, text :: Quotes(diff, n, text) && 1 <= n <= |f.lines| ==>
                 && (r.lo <= n <= r.hi || OverCredited(f, log.seen[path].q, r, n))
                 && (r.numbered ==> Chomp(f.lines[n - 1]) == text)
  {
    AcceptedRestsOn(log, resolve, path, diff, applied);
    var f := log.seen[path].file;
    forall n: nat, text | Quotes(diff, n, text) && 1 <= n <= |f.lines|
      ensures ReadLines(f, log.seen[path].q).value.numbered ==> Chomp(f.lines[n - 1]) == text
      ensures TargetRange(diff).value.lo <= n <= TargetRange(diff).value.hi
    {
      QuotedInRange(diff, n, text);
      QuotedTruly(diff, Chomped(f.lines), n, text);
    }
  }

  /** What the gates establish about an accepted patch. */
  lemma AcceptedRestsOn(log: Log, resolve: Resolver, path: string, diff: seq<string>, applied: Applied)
    requires Tracked(log, resolve) && path !in log.stale && TargetRange(diff).Some?
    requires PatchOutcome(log.s, resolve, path, diff, applied) == Edited
    ensures path in log.s.tracking && path in log.seen && ReadLines(log.seen[path].file, log.seen[path].q).Some?
    ensures var f := log.seen[path].file;
            var r := ReadLines(f, log.seen[path].q).value;
            && log.s.files[resolve(path).value] == f
            && EffectiveRange(log.seen[path].q, r).lo <= TargetRange(diff).value.lo
            && TargetRange(diff).value.hi <= EffectiveRange(log.seen[path].q, r).hi
            && (r.numbered ==> Faithful(Hunks(diff), Chomped(f.lines)))
  {
    assert TrackedAt(log, resolve, path);
  }

  lemma QuotedInRange(diff: seq<string>, n: int, text: string)
    requires Quotes(diff, n, text)
    ensures TargetRange(diff).Some? && TargetRange(diff).value.lo <= n <= TargetRange(diff).value.hi
  {
    ComparedLinesAreInRange(diff);
  }

  lemma QuotedTruly(diff: seq<string>, real_: seq<string>, n: nat, text: string)
    requires Quotes(diff, n, text) && 1 <= n <= |real_|
    ensures Faithful(Hunks(diff), real_) ==> real_[n - 1] == text
  {
    var h: Hunk, k: nat :| h in Hunks(diff) && k < |h.old_| && n == h.start + k && h.old_[k].1 == text;
    if Faithful(Hunks(diff), real_) {
      assert HunkFaithful(h, real_, |h.old_|) && InFile(h, k, real_);
    }
  }

  lemma {:induction false} UnreadStaysUntracked(log: Log, resolve: Resolver, path: string, calls: seq<Call>)
    requires path !in log.s.tracking && forall c :: c in calls ==> !(c.Read? && c.path == path)
    ensures path !in Run(log, resolve, calls).s.tracking
    decreases |calls|
  {
    if calls != [] {
      assert calls[0] in calls && forall d :: d in calls[1..] ==> d in calls;
      UnreadStaysUntracked(Logged(log, resolve, calls[0]), resolve, path, calls[1..]);
    }
  }

  /** After a successful edit of a path, whatever else the attempt does, a patch to
      that path with a header is refused until the path is read again. */
  lemma EditedMustBeReread(
    log: Log, resolve: Resolver, edit: Call, calls: seq<Call>, diff: seq<string>, applied: Applied)
    requires After(log.s, resolve, edit).1.Edited?
    requires forall c :: c in calls ==> !(c.Read? && c.path == edit.path)
    requires TargetRange(diff).Some?
    ensures var s := Run(log, resolve, [edit] + calls).s;
            PatchOutcome(s, resolve, edit.path, diff, applied) ==
                Refused(if HasDefect(diff) then MalformedDiff else StaleRead)
  {
    assert ([edit] + calls)[1..] == calls;
    UnreadStaysUntracked(Logged(log, resolve, edit), resolve, edit.path, calls);
  }

  /** Every path but the one a call named keeps its credit, whatever happened to
      its file: the freshness gate answers every diff as it did before the edit. */
  lemma OthersKeepCredit(s: Session, resolve: Resolver, path: string, edit: Call, diff: seq<string>)
    requires path in s.tracking && After(s, resolve, edit).1.Edited?
    ensures var next := After(s, resolve, edit).0;
            && (path in next.tracking <==> path != edit.path)
            && (path != edit.path ==> IsFresh(next, path, diff) == IsFresh(s, path, diff))
  {
  }

  /** A diff none of whose lines is a header passes the freshness gate untracked,
      and right after a numbered read, edited since or not, the fidelity gate as
      well: only applying it can still refuse. */
  lemma HeaderlessDiffsAreNotGated(s: Session, resolve: Resolver, path: string, diff: seq<string>, applied: Applied)
    requires resolve(path).Some? && resolve(path).value in s.files && !HasDefect(diff)
    requires Hunks(diff) == []
    ensures PatchOutcome(s, resolve, path, diff, applied).Edited? <==>
            applied.Patches? && (LastReadNumbered(s, path)
              || forall b :: b in Blocks(diff) ==> Appears(b, Chomped(s.files[resolve(path).value].lines)))
  {
    ComparedLinesAreInRange(diff);
  }
}
