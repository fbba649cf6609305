/**
 The condensed status string (update_condensed_str in eta.c): one character per
 job, runs of equal characters written as the character and its count.
 */
module StatusString {
  import opened Basics

  const NUL: char := 0 as char

  /** A status character and how many jobs in a row have it. */
  datatype Group = Group(c: char, count: nat)

  // ----- Decimal numbers -----

  function Digit(d: nat): char
    requires d < 10
  {
    ['0', '1', '2', '3', '4', '5', '6', '7', '8', '9'][d]
  }

  predicate IsDigit(c: char) {
    '0' <= c <= '9'
  }

  function DigitValue(c: char): nat
    requires IsDigit(c)
  {
    c as int - '0' as int
  }

  /** "%u" */
  function Decimal(n: nat): string {
    if n < 10 then [Digit(n)] else Decimal(n / 10) + [Digit(n % 10)]
  }

  /** Reading digits from the left: the number and what follows it. */
  function Scan(s: string, acc: nat): (nat, string)
    decreases |s|
  {
    if s != "" && IsDigit(s[0]) then Scan(s[1..], acc * 10 + DigitValue(s[0])) else (acc, s)
  }

  lemma ScanDecimal(n: nat, t: string)
    requires t != "" && !IsDigit(t[0])
    ensures Scan(Decimal(n) + t, 0) == (n, t)
  {
    DecimalScans(n, t);
  }

  lemma {:induction false} DecimalScans(n: nat, t: string)
    ensures Scan(Decimal(n) + t, 0) == Scan(t, n)
    decreases n
  {
    if n < 10 {
      assert (Decimal(n) + t)[1..] == t;
    } else {
      DecimalScans(n / 10, [Digit(n % 10)] + t);
      assert Decimal(n) + t == Decimal(n / 10) + ([Digit(n % 10)] + t);
      assert ([Digit(n % 10)] + t)[1..] == t;
    }
  }

  // ----- What is written, and how to read it back -----

  ghost function RunLength(s: string): (k: nat)
    requires s != ""
    ensures 1 <= k <= |s|
    ensures forall i :: 0 <= i < k ==> s[i] == s[0]
    ensures k < |s| ==> s[k] != s[0]
  {
    if |s| == 1 || s[1] != s[0] then 1 else 1 + RunLength(s[1..])
  }

  ghost function Groups(s: string): seq<Group>
    decreases |s|
  {
    if s == "" then [] else [Group(s[0], RunLength(s))] + Groups(s[RunLength(s)..])
  }

  function Shown(g: Group): string {
    [g.c] + "(" + Decimal(g.count) + ")"
  }

  function Render(gs: seq<Group>): string {
    if gs == [] then "" else if |gs| == 1 then Shown(gs[0]) else Shown(gs[0]) + "," + Render(gs[1..])
  }

  function Repeat(c: char, n: nat): string {
    if n == 0 then "" else [c] + Repeat(c, n - 1)
  }

  function Flatten(gs: seq<Group>): string {
    if gs == [] then "" else Repeat(gs[0].c, gs[0].count) + Flatten(gs[1..])
  }

  /** A reader for condensed strings. */
  function Expand(s: string): Option<string>
    decreases |s|
  {
    if s == "" then Some("")
    else if |s| < 2 || s[1] != '(' then None
    else
      var (n, rest) := Scan(s[2..], 0);
      if rest == "" || rest[0] != ')' then None
      else if |rest| == 1 then Some(Repeat(s[0], n))
      else if rest[1] != ',' || |rest| == 2 then None
      else
        ScanShorter(s[2..], 0);
        match Expand(rest[2..])
        case None => None
        case Some(t) => Some(Repeat(s[0], n) + t)
  }

  lemma {:induction false} ScanShorter(s: string, acc: nat)
    ensures |Scan(s, acc).1| <= |s|
    decreases |s|
  {
    if s != "" && IsDigit(s[0]) {
      ScanShorter(s[1..], acc * 10 + DigitValue(s[0]));
    }
  }

  /** Groups are maximal and their counts positive. */
  lemma {:induction false} GroupsMaximal(s: string)
    ensures forall i :: 0 <= i < |Groups(s)| ==> Groups(s)[i].count > 0
    ensures forall i :: 0 <= i < |Groups(s)| - 1 ==> Groups(s)[i].c != Groups(s)[i + 1].c
    ensures s != "" ==> |Groups(s)| > 0 && Groups(s)[0].c == s[0]
    decreases |s|
  {
    if s != "" {
      GroupsMaximal(s[RunLength(s)..]);
    }
  }

  /** Groups spell the input. */
  lemma {:induction false} GroupsSpell(s: string)
    ensures Flatten(Groups(s)) == s
    decreases |s|
  {
    if s != "" {
      hide *;
      var k := RunLength(s);
      GroupsStep(s);
      GroupsSpell(s[k..]);
      RepeatIs(s, k);
      FlattenStep(Group(s[0], k), Groups(s[k..]));
      assert s == s[..k] + s[k..];
    }
  }

  lemma FlattenStep(g: Group, gs: seq<Group>)
    ensures Flatten([g] + gs) == Repeat(g.c, g.count) + Flatten(gs)
  {
    assert ([g] + gs)[1..] == gs;
  }

  lemma RepeatIs(s: string, k: nat)
    requires 1 <= k <= |s| && forall i :: 0 <= i < k ==> s[i] == s[0]
    ensures Repeat(s[0], k) == s[..k]
  {
    RepeatAll(s[0], k);
  }

  lemma {:induction false} RepeatAll(c: char, k: nat)
    ensures |Repeat(c, k)| == k && forall i :: 0 <= i < k ==> Repeat(c, k)[i] == c
  {
    if k > 0 {
      RepeatAll(c, k - 1);
    }
  }

  /** Reading back any rendered list of groups. */
  lemma {:induction false} ExpandRender(gs: seq<Group>)
    ensures Expand(Render(gs)) == Some(Flatten(gs))
    decreases |gs|
  {
    if gs != [] {
      var g := gs[0];
      var tail := if |gs| == 1 then ")" else ")," + Render(gs[1..]);
      assert Render(gs) == [g.c] + "(" + (Decimal(g.count) + tail);
      assert Render(gs)[2..] == Decimal(g.count) + tail;
      ScanDecimal(g.count, tail);
      if |gs| == 1 {
        assert Flatten(gs[1..]) == "";
        assert Flatten(gs) == Repeat(g.c, g.count);
      } else {
        ExpandRender(gs[1..]);
        assert tail[2..] == Render(gs[1..]);
        assert Render(gs[1..]) != "";
      }
    }
  }

  /** The condensed string determines the original, for every input. */
  lemma CondensedReadsBack(s: string)
    ensures Expand(Render(Groups(s))) == Some(s)
  {
    GroupsSpell(s);
    ExpandRender(Groups(s));
  }

  /** Five characters per job are enough for the finished string and its terminator. */
  lemma {:induction false} CondensedLength(s: string)
    requires s != ""
    ensures |Render(Groups(s))| + 1 <= 5 * |s|
    decreases |s|
  {
    var k := RunLength(s);
    DecimalLength(k);
    if k < |s| {
      CondensedLength(s[k..]);
    } else {
      assert Groups(s[k..]) == [];
    }
  }

  lemma {:induction false} DecimalLength(n: nat)
    requires n > 0
    ensures 1 <= |Decimal(n)| <= n
    decreases n
  {
    if n >= 10 {
      DecimalLength(n / 10);
    }
  }

  // ----- Writing it -----

  /** What the loop has put in the buffer before the last comma is dropped. */
  ghost function WithCommas(gs: seq<Group>): string {
    if gs == [] then "" else Shown(gs[0]) + "," + WithCommas(gs[1..])
  }

  lemma {:induction false} WithCommasAppend(gs: seq<Group>, g: Group)
    ensures WithCommas(gs + [g]) == WithCommas(gs) + Shown(g) + ","
    decreases |gs|
  {
    hide Shown;
    if gs == [] {
      assert gs + [g] == [g] && [g][1..] == [];
    } else {
      WithCommasAppend(gs[1..], g);
      assert (gs + [g])[1..] == gs[1..] + [g];
    }
  }

  /** Dropping the last comma leaves the separated list. */
  lemma {:induction false} DropLastComma(gs: seq<Group>)
    requires gs != []
    ensures WithCommas(gs) == Render(gs) + ","
    decreases |gs|
  {
    if |gs| == 1 {
      assert WithCommas(gs[1..]) == "";
    } else {
      DropLastComma(gs[1..]);
    }
  }

  lemma {:induction false} WithCommasConcat(a: seq<Group>, b: seq<Group>)
    ensures |WithCommas(a + b)| == |WithCommas(a)| + |WithCommas(b)|
    decreases |a|
  {
    hide Shown;
    if a == [] {
      assert a + b == b;
    } else {
      WithCommasConcat(a[1..], b);
      assert (a + b)[1..] == a[1..] + b;
    }
  }

  ghost predicate NeighboursDiffer(s: string) {
    forall i :: 0 <= i < |s| - 1 ==> s[i] != s[i + 1]
  }

  lemma {:induction false} WrittenLength(s: string)
    ensures |WithCommas(Groups(s))| <= 5 * |s|
    ensures |WithCommas(Groups(s))| == 5 * |s| <==> NeighboursDiffer(s)
    decreases |s|
  {
    if s != "" {
      var k := RunLength(s);
      WrittenLength(s[k..]);
      WrittenStep(s);
      DecimalLength(k);
      if k == 1 {
        assert forall i :: 0 <= i < |s| - 1 ==> i > 0 ==> s[i] == s[1..][i - 1];
        assert forall i :: 0 <= i < |s[1..]| - 1 ==> s[1..][i] == s[i + 1];
      } else {
        assert s[0] == s[0 + 1];
      }
    }
  }

  lemma WrittenStep(s: string)
    requires s != ""
    ensures |WithCommas(Groups(s))| == 4 + |Decimal(RunLength(s))| + |WithCommas(Groups(s[RunLength(s)..]))|
  {
    GroupsStep(s);
    var rest := Groups(s[RunLength(s)..]);
    assert ([Group(s[0], RunLength(s))] + rest)[1..] == rest;
    hide Groups, RunLength, Decimal;
  }

  /** Five bytes per job in the map hold what the loop writes and its terminator
      exactly when two neighbouring jobs have the same status. */
  lemma FivePerJobExactly(s: string)
    requires s != ""
    ensures |WithCommas(Groups(s))| + 1 <= 5 * |s| <==> exists i :: 0 <= i < |s| - 1 && s[i] == s[i + 1]
    ensures |WithCommas(Groups(s))| + 1 <= 5 * |s| + 1
  {
    WrittenLength(s);
  }

  const REAL_MAX_JOBS: nat := 2048

  /** The declared size of the buffer: five bytes per possible job. */
  const RUN_STR_SIZE: nat := 5 * REAL_MAX_JOBS

  /** What the loop writes and its terminator fit the buffer exactly when the map
      is not full or two neighbouring jobs have the same status; one byte more
      always suffices. */
  lemma BufferFitsExactly(s: string)
    requires |s| <= REAL_MAX_JOBS
    ensures |WithCommas(Groups(s))| + 1 <= RUN_STR_SIZE <==>
              |s| < REAL_MAX_JOBS || exists i :: 0 <= i < |s| - 1 && s[i] == s[i + 1]
    ensures |WithCommas(Groups(s))| + 1 <= RUN_STR_SIZE + 1
  {
    WrittenLength(s);
  }

  /** Readers and writers in turn. */
  function Alternating(n: nat): string {
    seq(n, i => if i % 2 == 0 then 'R' else 'W')
  }

  /** For such a map of any length the loop writes five characters per job; so a
      full map needs one byte more than the buffer has. */
  lemma AlternatingFills(n: nat)
    ensures |Alternating(n)| == n && |WithCommas(Groups(Alternating(n)))| == 5 * n
    ensures n == REAL_MAX_JOBS ==> |WithCommas(Groups(Alternating(n)))| + 1 == RUN_STR_SIZE + 1
  {
    WrittenLength(Alternating(n));
  }

  /** sprintf at a position of the buffer, with its terminator. */
  method SPrint(out: array<char>, at: nat, text: string)
    requires at + |text| < out.Length
    modifies out
    ensures out[..at + |text|] == old(out[..at]) + text && out[at + |text|] == NUL
  {
    for i := 0 to |text|
      invariant out[..at + i] == old(out[..at]) + text[..i]
    {
      out[at + i] := text[i];
    }
    out[at + |text|] := NUL;
  }

  /** The character the source sees at a position, the terminator included. */
  function CharAt(s: string, i: nat): char {
    if i < |s| then s[i] else NUL
  }

  /** The inner loop: length of the run that starts at i. */
  method CountRun(run: string, i: nat) returns (nr: nat)
    requires i < |run| && NUL !in run
    ensures nr == RunLength(run[i..])
  {
    nr := 1;
    while CharAt(run, i + nr - 1) == CharAt(run, i + nr)
      invariant 1 <= nr && i + nr <= |run|
      invariant forall k :: i <= k < i + nr ==> run[k] == run[i]
      decreases |run| - nr
    {
      nr := nr + 1;
    }
    RunLengthIs(run[i..], nr);
  }

  lemma RunLengthIs(s: string, k: nat)
    requires 1 <= k <= |s| && (forall i :: 0 <= i < k ==> s[i] == s[0]) && (k < |s| ==> s[k] != s[0])
    ensures RunLength(s) == k
  {
  }

  /** One character and its count, with a comma. */
  method WriteGroup(out: array<char>, o: nat, g: Group, ghost gs: seq<Group>) returns (next: nat)
    requires o + 4 + |Decimal(g.count)| < out.Length && out[..o] == WithCommas(gs)
    modifies out
    ensures next == o + 4 + |Decimal(g.count)| && out[..next] == WithCommas(gs + [g])
  {
    WithCommasAppend(gs, g);
    hide WithCommas, Decimal;
    out[o] := g.c;
    var text := "(" + Decimal(g.count) + "),";
    SPrint(out, o + 1, text);
    next := o + 1 + |text|;
    assert Shown(g) + "," == [g.c] + text;
    assert out[..next] == WithCommas(gs) + ([g.c] + text);
  }

  /** The outer loop: every group with a comma after it. */
  method WriteGroups(run: string, out: array<char>) returns (o: nat)
    requires NUL !in run && |WithCommas(Groups(run))| < out.Length
    modifies out
    ensures o < out.Length && out[..o] == WithCommas(Groups(run))
  {
    hide *;
    o := 0;
    var i := 0;
    ghost var gs: seq<Group> := [];
    Start(run);
    while i < |run|
      invariant 0 <= i <= |run| && o == |WithCommas(gs)| < out.Length
      invariant Groups(run) == gs + Groups(run[i..])
      invariant out[..o] == WithCommas(gs)
      decreases |run| - i
    {
      var nr := CountRun(run, i);
      NextGroup(run, i, gs);
      RoomForGroup(gs, Group(run[i], nr), Groups(run[i + nr..]));
      o := WriteGroup(out, o, Group(run[i], nr), gs);
      gs := gs + [Group(run[i], nr)];
      i := i + nr;
    }
    assert run[i..] == "";
    assert gs + [] == gs;
  }

  lemma RoomForGroup(gs: seq<Group>, g: Group, rest: seq<Group>)
    ensures |WithCommas(gs)| + 4 + |Decimal(g.count)| <= |WithCommas((gs + [g]) + rest)|
  {
    WithCommasConcat(gs + [g], rest);
    WithCommasAppend(gs, g);
    hide WithCommas, Decimal;
  }

  lemma Start(run: string)
    ensures Groups(run) == [] + Groups(run[0..]) && WithCommas([]) == "" && Groups("") == []
  {
    assert run[0..] == run;
  }

  /** update_condensed_str, on every buffer that what it writes fits in: the
      groups, the comma after the last one and the terminator of sprintf. */
  method UpdateCondensedStr(run: string, out: array<char>)
    requires NUL !in run && |WithCommas(Groups(run))| < out.Length
    modifies out
    ensures var c := Render(Groups(run));
            |c| < out.Length && out[..|c|] == c && out[|c|] == NUL
  {
    var o := 0;
    assert (run != "" ==> Groups(run) != []) && Render(Groups("")) == "";
    hide *;
    if run != "" {
      o := WriteGroups(run, out);
      DropLastComma(Groups(run));
      o := o - 1;
      assert out[..o] == out[..o + 1][..o];
    }
    out[o] := NUL;
  }

  lemma NextGroup(run: string, i: nat, gs: seq<Group>)
    requires i < |run|
    ensures var k := RunLength(run[i..]);
            && i + k <= |run|
            && gs + Groups(run[i..]) == (gs + [Group(run[i], k)]) + Groups(run[i + k..])
  {
    GroupsStep(run[i..]);
    hide *;
    assert run[i..][RunLength(run[i..])..] == run[i + RunLength(run[i..])..];
  }

  lemma GroupsStep(s: string)
    requires s != ""
    ensures Groups(s) == [Group(s[0], RunLength(s))] + Groups(s[RunLength(s)..])
  {
  }
}
