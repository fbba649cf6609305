/**
 string_distance (parse.c): the distance between two option names, computed
 with two rows that are filled and swapped.
 */
module EditDistance {
  import opened Basics

  function Mismatch(x: char, y: char): nat {
    if x == y then 0 else 1
  }

  /** The recurrence on the last characters. */
  ghost function Dist(s: string, t: string): nat
    decreases |s| + |t|
  {
    if s == [] then |t|
    else if t == [] then |s|
    else
      var s', t' := s[..|s| - 1], t[..|t| - 1];
      Min(Dist(s', t) + 1, Min(Dist(s, t') + 1, Dist(s', t') + Mismatch(s[|s| - 1], t[|t| - 1])))
  }

  ghost predicate RowOf(row: seq<nat>, s: string, t: string, upTo: nat) {
    upTo <= |row| && upTo <= |t| + 1 &&
    forall j :: 0 <= j < upTo ==> row[j] == Dist(s, t[..j])
  }

  method StringDistance(s1: string, s2: string) returns (d: nat)
    ensures d == Dist(s1, s2)
  {
    FirstEntries(s1, s2);
    hide Dist;
    var p := new nat[|s2| + 1];
    var q := new nat[|s2| + 1];
    p[0] := 0;
    var i := 1;
    while i <= |s2|
      invariant 1 <= i <= |s2| + 1
      invariant RowOf(p[..], [], s2, i)
    {
      p[i] := p[i - 1] + 1;
      i := i + 1;
    }
    assert RowOf(p[..], s1[..0], s2, |s2| + 1) by { assert s1[..0] == []; }
    i := 1;
    while i <= |s1|
      invariant 1 <= i <= |s1| + 1
      invariant p != q && p.Length == q.Length == |s2| + 1
      invariant fresh(p) && fresh(q)
      invariant RowOf(p[..], s1[..i - 1], s2, |s2| + 1)
    {
      assert p[..][0] == Dist(s1[..i - 1], s2[..0]);
      q[0] := p[0] + 1;
      var j := 1;
      while j <= |s2|
        invariant 1 <= j <= |s2| + 1
        invariant RowOf(p[..], s1[..i - 1], s2, |s2| + 1)
        invariant RowOf(q[..], s1[..i], s2, j)
      {
        var sub := p[j - 1];
        if s1[i - 1] != s2[j - 1] {
          sub := sub + 1;
        }
        NextEntry(p[..], q[..], s1, s2, i, j);
        q[j] := Min(p[j] + 1, Min(q[j - 1] + 1, sub));
        j := j + 1;
      }
      var r := p;
      p := q;
      q := r;
      i := i + 1;
    }
    assert s1[..|s1|] == s1 && s2[..|s2|] == s2;
    d := p[|s2|];
  }

  /** The first row and the first column of the table. */
  lemma FirstEntries(s: string, t: string)
    ensures forall j :: 0 <= j <= |t| ==> Dist([], t[..j]) == j
    ensures forall i :: 0 <= i <= |s| ==> Dist(s[..i], t[..0]) == i
  {
  }

  /** One table entry from its three neighbours. */
  lemma NextEntry(p: seq<nat>, q: seq<nat>, s: string, t: string, i: nat, j: nat)
    requires 1 <= i <= |s| && 1 <= j <= |t|
    requires RowOf(p, s[..i - 1], t, |t| + 1) && RowOf(q, s[..i], t, j)
    ensures Dist(s[..i], t[..j])
         == Min(p[j] + 1, Min(q[j - 1] + 1, p[j - 1] + Mismatch(s[i - 1], t[j - 1])))
  {
    assert s[..i][..i - 1] == s[..i - 1];
    assert t[..j][..j - 1] == t[..j - 1];
  }

  // ----- What the number means: shortest chain of single edits -----

  /** t is s with one character inserted, deleted or replaced. */
  ghost predicate OneEdit(s: string, t: string) {
    || (exists i, c :: 0 <= i <= |s| && t == Insert(s, i, c))
    || (exists i, c :: 0 <= i <= |t| && s == Insert(t, i, c))
    || (exists i, c :: 0 <= i < |s| && t == Replace(s, i, c))
  }

  ghost function Insert(s: string, i: nat, c: char): string
    requires i <= |s|
  {
    s[..i] + [c] + s[i..]
  }

  ghost function Replace(s: string, i: nat, c: char): string
    requires i < |s|
  {
    s[..i] + [c] + s[i + 1..]
  }

  /** A chain of strings, each one edit away from the one before. */
  ghost predicate Chain(chain: seq<string>, s: string, t: string) {
    && |chain| > 0 && chain[0] == s && chain[|chain| - 1] == t
    && forall k :: 0 <= k < |chain| - 1 ==> OneEdit(chain[k], chain[k + 1])
  }

  lemma {:induction false} DistSymmetric(s: string, t: string)
    ensures Dist(s, t) == Dist(t, s)
    decreases |s| + |t|
  {
    if s != [] && t != [] {
      DistSymmetric(s[..|s| - 1], t);
      DistSymmetric(s, t[..|t| - 1]);
      DistSymmetric(s[..|s| - 1], t[..|t| - 1]);
    }
  }

  lemma {:induction false} DistSelf(s: string)
    ensures Dist(s, s) == 0
    decreases |s|
  {
    if s != [] {
      DistSelf(s[..|s| - 1]);
    }
  }

  lemma {:induction false} DistZeroOnlyOnEqual(s: string, t: string)
    ensures Dist(s, t) == 0 <==> s == t
    decreases |s| + |t|
  {
    if s == t {
      DistSelf(s);
    } else if s != [] && t != [] {
      var s', t' := s[..|s| - 1], t[..|t| - 1];
      DistZeroOnlyOnEqual(s', t');
      assert s == s' + [s[|s| - 1]] && t == t' + [t[|t| - 1]];
    }
  }

  lemma {:induction false} Triangle(a: string, b: string, c: string)
    ensures Dist(a, c) <= Dist(a, b) + Dist(b, c)
    decreases |a| + |b| + |c|
  {
    if a == [] || b == [] || c == [] {
      LengthBound(a, b);
      LengthBound(b, c);
      LengthBound(a, c);
    } else {
      var a', b', c' := a[..|a| - 1], b[..|b| - 1], c[..|c| - 1];
      Triangle(a', b, c);
      Triangle(a, b, c');
      Triangle(a, b', c);
      Triangle(a, b', c');
      Triangle(a', b', c);
      Triangle(a', b', c');
    }
  }

  lemma {:induction false} LengthBound(s: string, t: string)
    ensures |s| - |t| <= Dist(s, t) && |t| - |s| <= Dist(s, t)
    ensures Dist(s, t) <= |s| + |t|
    decreases |s| + |t|
  {
    if s != [] && t != [] {
      LengthBound(s[..|s| - 1], t);
      LengthBound(s, t[..|t| - 1]);
      LengthBound(s[..|s| - 1], t[..|t| - 1]);
    }
  }

  /** A common suffix never makes strings further apart. */
  lemma {:induction false} CommonSuffix(s: string, t: string, u: string)
    ensures Dist(s + u, t + u) <= Dist(s, t)
    decreases |u|
  {
    if u == [] {
      assert s + u == s && t + u == t;
    } else {
      var u' := u[..|u| - 1];
      CommonSuffix(s, t, u');
      assert (s + u)[..|s + u| - 1] == s + u' && (t + u)[..|t + u| - 1] == t + u';
    }
  }

  lemma OneEditIsOneApart(s: string, t: string)
    requires OneEdit(s, t)
    ensures Dist(s, t) <= 1
  {
    if i, c :| 0 <= i <= |s| && t == Insert(s, i, c) {
      InsertOneApart(s, i, c);
    } else if i, c :| 0 <= i <= |t| && s == Insert(t, i, c) {
      InsertOneApart(t, i, c);
      DistSymmetric(s, t);
    } else {
      var i, c :| 0 <= i < |s| && t == Replace(s, i, c);
      ReplaceOneApart(s, i, c);
    }
  }

  lemma InsertOneApart(s: string, i: nat, c: char)
    requires i <= |s|
    ensures Dist(s, Insert(s, i, c)) <= 1
  {
    hide Dist;
    assert s[..i] + s[i..] == s;
    LastInserted(s[..i], c);
    CommonSuffix(s[..i], s[..i] + [c], s[i..]);
  }

  lemma LastInserted(u: string, c: char)
    ensures Dist(u, u + [c]) <= 1
  {
    DistSelf(u);
    assert (u + [c])[..|u|] == u;
  }

  lemma LastReplaced(u: string, x: char, y: char)
    ensures Dist(u + [x], u + [y]) <= 1
  {
    DistSelf(u);
    var s, t := u + [x], u + [y];
    assert s[..|s| - 1] == u && t[..|t| - 1] == u;
  }

  lemma SplitAround(s: string, i: nat)
    requires i < |s|
    ensures s == s[..i] + [s[i]] + s[i + 1..]
  {
  }

  lemma ReplaceOneApart(s: string, i: nat, c: char)
    requires i < |s|
    ensures Dist(s, Replace(s, i, c)) <= 1
  {
    SplitAround(s, i);
    hide Dist;
    LastReplaced(s[..i], s[i], c);
    CommonSuffix(s[..i] + [s[i]], s[..i] + [c], s[i + 1..]);
  }

  /** Lower bound: no chain of edits is shorter than the distance. */
  lemma {:induction false} ChainAtLeastDist(chain: seq<string>, s: string, t: string)
    requires Chain(chain, s, t)
    ensures Dist(s, t) <= |chain| - 1
    decreases |chain|
  {
    if |chain| == 1 {
      DistSelf(s);
    } else {
      var u := chain[|chain| - 2];
      assert OneEdit(chain[|chain| - 2], chain[|chain| - 2 + 1]);
      ChainAtLeastDist(chain[..|chain| - 1], s, u);
      OneEditIsOneApart(u, t);
      Triangle(s, u, t);
    }
  }

  /** Appending a character to every string of a chain gives a chain. */
  lemma ChainAppend(chain: seq<string>, s: string, t: string, c: char) returns (longer: seq<string>)
    requires Chain(chain, s, t)
    ensures |longer| == |chain| && Chain(longer, s + [c], t + [c])
  {
    longer := seq(|chain|, k requires 0 <= k < |chain| => chain[k] + [c]);
    forall k | 0 <= k < |chain| - 1 ensures OneEdit(longer[k], longer[k + 1]) {
      OneEditAppend(chain[k], chain[k + 1], c);
    }
  }

  lemma InsertAppend(s: string, i: nat, x: char, c: char)
    requires i <= |s|
    ensures Insert(s, i, x) + [c] == Insert(s + [c], i, x)
  {
  }

  lemma ReplaceAppend(s: string, i: nat, x: char, c: char)
    requires i < |s|
    ensures Replace(s, i, x) + [c] == Replace(s + [c], i, x)
  {
  }

  lemma OneEditAppend(s: string, t: string, c: char)
    requires OneEdit(s, t)
    ensures OneEdit(s + [c], t + [c])
  {
    hide Insert, Replace;
    if i, x :| 0 <= i <= |s| && t == Insert(s, i, x) {
      InsertAppend(s, i, x, c);
    } else if i, x :| 0 <= i <= |t| && s == Insert(t, i, x) {
      InsertAppend(t, i, x, c);
    } else {
      var i, x :| 0 <= i < |s| && t == Replace(s, i, x);
      ReplaceAppend(s, i, x, c);
    }
  }

  lemma InsertAtEnd(u: string, c: char)
    ensures Insert(u, |u|, c) == u + [c]
  {
  }

  lemma ReplaceLast(u: string, x: char, y: char)
    ensures Replace(u + [x], |u|, y) == u + [y]
  {
  }

  lemma ChainSnoc(chain: seq<string>, s: string, u: string, t: string)
    requires Chain(chain, s, u) && OneEdit(u, t)
    ensures Chain(chain + [t], s, t)
  {
  }

  /** Upper bound: some chain of edits is exactly as long as the distance. */
  lemma {:induction false} ShortestChain(s: string, t: string) returns (chain: seq<string>)
    ensures Chain(chain, s, t) && |chain| - 1 == Dist(s, t)
    decreases |s| + |t|
  {
    hide Insert, Replace;
    assert s != [] ==> s == s[..|s| - 1] + [s[|s| - 1]];
    assert t != [] ==> t == t[..|t| - 1] + [t[|t| - 1]];
    if s == [] && t == [] {
      chain := [s];
    } else if s == [] || (t != [] && Dist(s, t) == Dist(s, t[..|t| - 1]) + 1) {
      var t' := t[..|t| - 1];
      chain := ShortestChain(s, t');
      InsertAtEnd(t', t[|t| - 1]);
      ChainSnoc(chain, s, t', t);
      chain := chain + [t];
    } else if t == [] || Dist(s, t) == Dist(s[..|s| - 1], t) + 1 {
      var s' := s[..|s| - 1];
      var rest := ShortestChain(s', t);
      InsertAtEnd(s', s[|s| - 1]);
      chain := [s] + rest;
    } else {
      var s', t' := s[..|s| - 1], t[..|t| - 1];
      var x, y := s[|s| - 1], t[|t| - 1];
      var inner := ShortestChain(s', t');
      chain := ChainAppend(inner, s', t', x);
      if x != y {
        ReplaceLast(t', x, y);
        ChainSnoc(chain, s, t' + [x], t);
        chain := chain + [t];
      }
    }
  }

  /** The result is exactly the minimum number of insertions, deletions and
      replacements that turn s1 into s2. */
  lemma DistIsMinimal(s: string, t: string)
    ensures exists chain :: Chain(chain, s, t) && |chain| - 1 == Dist(s, t)
    ensures forall chain :: Chain(chain, s, t) ==> Dist(s, t) <= |chain| - 1
  {
    var c := ShortestChain(s, t);
    forall chain | Chain(chain, s, t) ensures Dist(s, t) <= |chain| - 1 {
      ChainAtLeastDist(chain, s, t);
    }
  }

  // ----- show_cmd_help: the closest option -----

  /** `alias` is empty for an option without one; `shown` is false for a
      deprecated option and for one of another profile. */
  datatype OptionName = OptionName(name: string, alias: string, shown: bool) {
    predicate Matches(wanted: string) {
      shown && (wanted == name || (alias != "" && wanted == alias))
    }
    /** "all" asks for every option. */
    predicate Answers(wanted: string) {
      shown && (wanted == "all" || Matches(wanted))
    }

    predicate Candidate(wanted: string) {
      shown && !Matches(wanted)
    }
  }

  ghost predicate FirstNearest(wanted: string, options: seq<OptionName>, n: nat, i: nat) {
    && i < n <= |options| && options[i].Candidate(wanted)
    && (forall k :: 0 <= k < n && options[k].Candidate(wanted) ==>
          Dist(wanted, options[i].name) <= Dist(wanted, options[k].name))
    && (forall k :: 0 <= k < i && options[k].Candidate(wanted) ==>
          Dist(wanted, options[i].name) < Dist(wanted, options[k].name))
  }

  /** Looking up a name: `found` says whether an option answers; otherwise
      `suggested` is the first of the nearest options, if it is at most two
      edits away, and -1 if no option is. */
  method ShowCmdHelp(wanted: string, options: seq<OptionName>) returns (found: bool, suggested: int)
    ensures found <==> exists k :: 0 <= k < |options| && options[k].Answers(wanted)
    ensures suggested == -1 <==>
              found || forall k :: 0 <= k < |options| && options[k].shown ==> Dist(wanted, options[k].name) > 2
    ensures suggested != -1 ==>
              0 <= suggested && FirstNearest(wanted, options, |options|, suggested)
              && Dist(wanted, options[suggested].name) <= 2
  {
    found := false;
    var closest, best: int := -1, -1;   // no closest option; the source's best_dist is the largest unsigned value
    for i := 0 to |options|
      invariant found <==> exists k :: 0 <= k < i && options[k].Answers(wanted)
      invariant closest == -1 <==> forall k :: 0 <= k < i ==> !options[k].Candidate(wanted)
      invariant closest != -1 ==>
                  0 <= closest && FirstNearest(wanted, options, i, closest)
                  && best == Dist(wanted, options[closest].name)
    {
      if options[i].shown {
        if wanted == "all" || options[i].Matches(wanted) {
          found := true;
        }
        if !options[i].Matches(wanted) {
          var dist := StringDistance(wanted, options[i].name);
          if closest == -1 || dist < best {
            best, closest := dist, i;
          }
        }
      }
    }
    suggested := if !found && closest != -1 && best < 3 then closest else -1;
  }
}
