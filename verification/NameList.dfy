/**
 Lists of file names in one string (options.c): names are separated by colons,
 a colon inside a name is escaped with a backslash.  get_next_name cuts the
 string up in place.
 */
module NameList {

  datatype Rest = Nothing | More(text: string)

  /** Reading one name character by character; `name` is what was read so far,
      already unescaped.  Colons before a name are skipped. */
  ghost function Take(name: string, s: string): (r: (string, Rest))
    ensures r.1.More? ==> |r.1.text| < |s|
    decreases |s|
  {
    if s == "" then (name, Nothing)
    else if s[0] != ':' then Take(name + [s[0]], s[1..])
    else if name == "" then Take("", s[1..])
    else if name[|name| - 1] != '\\' then (name, More(s[1..]))
    else Take(name[..|name| - 1] + ":", s[1..])
  }

  /** All names, as repeated calls return them. */
  ghost function Split(s: string): seq<string>
    decreases |s|
  {
    if s == "" then [] else Named("", s)
  }

  /** The rest of the list when `name` has been read already. */
  ghost function Named(name: string, s: string): seq<string>
    decreases |s|, 0
  {
    var r := Take(name, s);
    [r.0] + match r.1 case Nothing => [] case More(t) => Split(t)
  }

  // ----- The round trip -----

  ghost function Escape(name: string): string {
    if name == "" then "" else (if name[0] == ':' then "\\:" else [name[0]]) + Escape(name[1..])
  }

  ghost function Join(names: seq<string>): string {
    if names == [] then ""
    else if |names| == 1 then Escape(names[0])
    else Escape(names[0]) + ":" + Join(names[1..])
  }

  lemma EscapeStep(n: string, tail: string)
    requires n != ""
    ensures var rest := Escape(n[1..]) + tail;
            Escape(n) + tail == if n[0] == ':' then ['\\'] + ([':'] + rest) else [n[0]] + rest
  {
  }

  /** Reading an escaped name yields the name. */
  lemma {:induction false} TakeEscaped(name: string, n: string, tail: string)
    ensures Take(name, Escape(n) + tail) == Take(name + n, tail)
    decreases |n|
  {
    if n == "" {
      assert Escape(n) + tail == tail && name + n == name;
    } else {
      hide *;
      TakeFirstEscaped(name, n, tail);
      assert name + [n[0]] + n[1..] == name + n;
      TakeEscaped(name + [n[0]], n[1..], tail);
    }
  }

  lemma TakeFirstEscaped(name: string, n: string, tail: string)
    requires n != ""
    ensures Take(name, Escape(n) + tail) == Take(name + [n[0]], Escape(n[1..]) + tail)
  {
    hide *;
    var rest := Escape(n[1..]) + tail;
    EscapeStep(n, tail);
    if n[0] == ':' {
      TakePlain(name, '\\', [':'] + rest);
      TakeColon(name, rest);
    } else {
      TakePlain(name, n[0], rest);
    }
  }

  lemma TakePlain(name: string, c: char, s: string)
    requires c != ':'
    ensures Take(name, [c] + s) == Take(name + [c], s)
  {
    assert ([c] + s)[1..] == s;
  }

  lemma TakeColon(name: string, s: string)
    ensures Take(name + ['\\'], [':'] + s) == Take(name + [':'], s)
  {
    assert (":" + s)[1..] == s;
    assert (name + "\\")[..|name|] == name;
  }

  /** A separator ends a name that is not empty and not about to escape it. */
  ghost predicate Closed(name: string) {
    name != "" && name[|name| - 1] != '\\'
  }

  lemma TakeEnd(name: string, s: string)
    requires Closed(name)
    ensures Take(name, ":" + s) == (name, More(s)) && Take(name, "") == (name, Nothing)
  {
    assert (":" + s)[1..] == s;
  }

  lemma JoinCons(names: seq<string>)
    requires |names| > 1
    ensures Join(names) == Escape(names[0]) + (":" + Join(names[1..])) && Join(names) != ""
  {
    hide Escape;
    var rest := ":" + Join(names[1..]);
    assert rest != "";
    assert Join(names) == Escape(names[0]) + rest;
  }

  lemma {:induction false} EscapeEmpty(n: string)
    ensures Escape(n) == "" <==> n == ""
  {
  }

  /** Names that come back from the round trip: none empty, and none but the
      last ending in a backslash. */
  ghost predicate Plain(names: seq<string>) {
    && (forall i :: 0 <= i < |names| ==> names[i] != "")
    && (forall i :: 0 <= i < |names| - 1 ==> Closed(names[i]))
  }

  lemma {:induction false} SplitJoin(names: seq<string>)
    requires Plain(names)
    ensures Split(Join(names)) == names
    decreases |names|
  {
    if |names| == 1 {
      EscapeEmpty(names[0]);
      TakeEscaped("", names[0], "");
      assert Escape(names[0]) + "" == Escape(names[0]) && "" + names[0] == names[0];
    } else if |names| > 1 {
      JoinCons(names);
      TakeEscaped("", names[0], ":" + Join(names[1..]));
      assert "" + names[0] == names[0];
      TakeEnd(names[0], Join(names[1..]));
      SplitJoin(names[1..]);
      assert [names[0]] + names[1..] == names;
    }
  }

  // ----- No other list comes back -----

  /** Splitting never invents names: a joined list has at most its length. */
  lemma {:induction false} AtMostAsMany(name: string, names: seq<string>)
    requires names != []
    ensures |Split(Join(names))| <= |names|
    ensures name != "" ==> |Named(name, Join(names))| <= |names|
    decreases |names|
  {
    if |names| == 1 {
      TakeEscaped("", names[0], "");
      TakeEscaped(name, names[0], "");
      assert Escape(names[0]) + "" == Escape(names[0]);
    } else {
      JoinCons(names);
      AfterName("" + names[0], names);
      TakeEscaped("", names[0], ":" + Join(names[1..]));
      if name != "" {
        AfterName(name + names[0], names);
        TakeEscaped(name, names[0], ":" + Join(names[1..]));
      }
    }
  }

  /** Reading goes on at the separator after the first name. */
  lemma {:induction false} AfterName(name: string, names: seq<string>)
    requires |names| > 1
    ensures |Named(name, ":" + Join(names[1..]))| <= |names|
    decreases |names|, 0
  {
    var rest := Join(names[1..]);
    assert (":" + rest)[1..] == rest;
    if Closed(name) {
      TakeEnd(name, rest);
      AtMostAsMany("", names[1..]);
    } else if name == "" {
      assert Named(name, ":" + rest) == Named("", rest);
      AtMostAsMany("", names[1..]);
    } else {
      assert Named(name, ":" + rest) == Named(name[..|name| - 1] + ":", rest);
      AtMostAsMany(name[..|name| - 1] + ":", names[1..]);
    }
  }

  /** What was read stays, except perhaps a final backslash. */
  lemma {:induction false} NameGrows(name: string, s: string)
    ensures |name| > 0 ==> name[..|name| - 1] <= Take(name, s).0
    ensures Closed(name) ==> name <= Take(name, s).0
    decreases |s|
  {
    if s != "" {
      if s[0] != ':' {
        NameGrows(name + [s[0]], s[1..]);
        assert (name + [s[0]])[..|name|] == name;
      } else if name != "" && !Closed(name) {
        NameGrows(name[..|name| - 1] + ":", s[1..]);
      }
    }
  }

  /** A name ending in a backslash swallows the separator after it. */
  lemma SwallowsSeparator(names: seq<string>)
    requires |names| > 1 && names[0] != "" && !Closed(names[0])
    ensures var r := Split(Join(names)); r != [] ==> r[0] != names[0]
  {
    var n, rest := names[0], Join(names[1..]);
    JoinCons(names);
    TakeEscaped("", n, ":" + rest);
    assert "" + n == n;
    assert (":" + rest)[1..] == rest;
    var m := n[..|n| - 1] + ":";
    NameGrows(m, rest);
    assert Take("", Join(names)).0 == Take(m, rest).0;
    assert m[|m| - 1] == ':' && Take(m, rest).0[|m| - 1] == ':';
  }

  /** The round trip holds for exactly these lists. */
  lemma {:induction false} RoundTripExact(names: seq<string>)
    ensures Split(Join(names)) == names <==> Plain(names)
    decreases |names|
  {
    if Plain(names) {
      SplitJoin(names);
    } else if |names| == 1 {
      assert Join(names) == "";
    } else {
      var n, rest := names[0], Join(names[1..]);
      JoinCons(names);
      TakeEscaped("", n, ":" + rest);
      assert "" + n == n && (":" + rest)[1..] == rest;
      if n == "" {
        assert Split(Join(names)) == Named("", rest);
        AtMostAsMany("", names[1..]);
        if rest == "" {
          assert |Named("", rest)| == 1;
        }
      } else if !Closed(n) {
        SwallowsSeparator(names);
      } else {
        TakeEnd(n, rest);
        assert Split(Join(names)) == [n] + Split(rest);
        RoundTripExact(names[1..]);
        assert names == [n] + names[1..];
        assert !Plain(names[1..]);
      }
    }
  }

  // ----- Cutting the string up in place -----

  const NULL: int := -1
  const NUL: char := 0 as char

  ghost predicate Matches(b: seq<char>, p: int, t: string) {
    0 <= p && p + |t| <= |b| && forall i :: 0 <= i < |t| ==> b[p + i] == t[i]
  }

  /** The buffer holds the string t, terminated, at position p. */
  ghost predicate Holds(b: seq<char>, p: int, t: string) {
    Matches(b, p, t) && p + |t| < |b| && b[p + |t|] == NUL && NUL !in t
  }

  lemma NoneInside(b: seq<char>, p: int, t: string)
    requires Holds(b, p, t)
    ensures forall q :: p <= q < p + |t| ==> b[q] != NUL
  {
    forall q | p <= q < p + |t| ensures b[q] != NUL {
      assert b[p + (q - p)] == t[q - p];
    }
  }

  /** Position of the first colon at or after p, or NULL. */
  method StrChr(buf: array<char>, p: int, ghost t: string) returns (q: int)
    requires Holds(buf[..], p, t)
    ensures q == NULL <==> ':' !in t
    ensures q != NULL ==> p <= q < p + |t| && t[q - p] == ':' && ':' !in t[..q - p]
  {
    NoneInside(buf[..], p, t);
    q := p;
    while buf[q] != NUL
      invariant p <= q <= p + |t|
      invariant ':' !in t[..q - p]
      decreases p + |t| - q
    {
      assert buf[..][p + (q - p)] == t[q - p];
      if buf[q] == ':' {
        return;
      }
      q := q + 1;
    }
    assert buf[..][q] == NUL;
    assert t[..|t|] == t;
    return NULL;
  }

  /** b' is b with the text at p and its terminator moved one to the left. */
  ghost predicate Shifted(b: seq<char>, b': seq<char>, p: int, n: nat) {
    && |b'| == |b| && 1 <= p && p + n < |b|
    && (forall k :: 0 <= k < p - 1 ==> b'[k] == b[k])
    && (forall k :: p - 1 <= k < p + n ==> b'[k] == b[k + 1])
  }

  /** memmove(p - 1, p, strlen(p) + 1) */
  method ShiftLeft(buf: array<char>, p: int, ghost t: string)
    requires p >= 1 && Holds(buf[..], p, t)
    modifies buf
    ensures Shifted(old(buf[..]), buf[..], p, |t|)
  {
    ghost var b := buf[..];
    NoneInside(b, p, t);
    var i := p;
    while buf[i] != NUL
      invariant p <= i <= p + |t|
      invariant forall k :: 0 <= k < p - 1 ==> buf[k] == b[k]
      invariant forall k :: p - 1 <= k < i - 1 ==> buf[k] == b[k + 1]
      invariant forall k :: i <= k < buf.Length ==> buf[k] == b[k]
      decreases p + |t| - i
    {
      assert i < p + |t|;
      buf[i - 1] := buf[i];
      i := i + 1;
    }
    assert b[i] == NUL;
    buf[i - 1] := NUL;
  }

  lemma {:induction false} TakeRun(name: string, u: string, s: string)
    requires ':' !in u
    ensures Take(name, u + s) == Take(name + u, s)
    decreases |u|
  {
    if u == "" {
      assert u + s == s && name + u == name;
    } else {
      assert u + s == [u[0]] + (u[1..] + s);
      TakePlain(name, u[0], u[1..] + s);
      TakeRun(name + [u[0]], u[1..], s);
      assert name + [u[0]] + u[1..] == name + u;
    }
  }

  /** What the buffer shows between two rounds of the loop: the part of the
      name read so far from `start`, the rest of the text from `str`. */
  ghost predicate Reading(b: seq<char>, start: int, str: int, name: string, rest: string) {
    Matches(b, start, name) && start + |name| == str && NUL !in name && Holds(b, str, rest)
  }

  /** Reading past a separator-free stretch up to a colon at p. */
  lemma UpToColon(b: seq<char>, start: int, str: int, name: string, rest: string, p: int)
    requires Reading(b, start, str, name, rest)
    requires str <= p < str + |rest| && rest[p - str] == ':' && ':' !in rest[..p - str]
    ensures Reading(b, start, p, name + rest[..p - str], ":" + rest[p - str + 1..])
    ensures Take(name, rest) == Take(name + rest[..p - str], ":" + rest[p - str + 1..])
  {
    var u, v := rest[..p - str], ":" + rest[p - str + 1..];
    assert rest == u + v;
    TakeRun(name, u, v);
    hide Take;
    forall i | 0 <= i < |v| ensures b[p + i] == v[i] {
      assert b[str + (p - str + i)] == rest[p - str + i];
    }
    forall i | 0 <= i < |name + u| ensures b[start + i] == (name + u)[i] {
      if i >= |name| {
        assert b[str + (i - |name|)] == rest[i - |name|];
      }
    }
  }

  /** The escaped colon moves one to the left, over its backslash. */
  lemma Unescaped(b: seq<char>, b': seq<char>, start: int, p: int, name: string, after: string)
    requires Reading(b, start, p, name, ":" + after) && name != ""
    requires Shifted(b, b', p, |after| + 1)
    ensures Reading(b', start, p, name[..|name| - 1] + ":", after)
  {
    var v := ":" + after;
    forall i | 0 <= i < |after| ensures b'[p + i] == after[i] {
      assert b[p + (i + 1)] == v[i + 1];
    }
    assert b[p + 0] == v[0];
  }

  lemma UnescapedTake(name: string, after: string)
    requires name != "" && name[|name| - 1] == '\\'
    ensures Take(name, ":" + after) == Take(name[..|name| - 1] + ":", after)
  {
    assert name == name[..|name| - 1] + "\\";
    TakeColon(name[..|name| - 1], after);
  }

  /** A colon before any name is skipped. */
  lemma Skip(b: seq<char>, p: int, after: string)
    requires Holds(b, p, ":" + after)
    ensures Holds(b, p + 1, after)
    ensures Take("", ":" + after) == Take("", after)
  {
    var v := ":" + after;
    assert v[1..] == after;
    forall i | 0 <= i < |after| ensures b[p + 1 + i] == after[i] {
      assert b[p + (i + 1)] == v[i + 1];
    }
  }

  lemma Whole(b: seq<char>, start: int, str: int, name: string, rest: string)
    requires Reading(b, start, str, name, rest)
    ensures Holds(b, start, name + rest)
  {
  }

  lemma CutHere(b: seq<char>, start: int, p: int, name: string, after: string)
    requires Reading(b, start, p, name, ":" + after)
    ensures Holds(b[p := NUL], start, name) && Holds(b[p := NUL], p + 1, after)
  {
    Skip(b, p, after);
  }

  /** get_next_name.  The name is left terminated in the buffer, the rest of
      the list after it, and nothing before the old pointer is touched. */
  method GetNextName(buf: array<char>, ptr: int, ghost t: string) returns (start: int, next: int)
    requires ptr != NULL ==> Holds(buf[..], ptr, t)
    modifies buf
    ensures ptr == NULL || t == "" ==> start == NULL && next == ptr && buf[..] == old(buf[..])
    ensures ptr != NULL && t != "" ==>
              var r := Take("", t);
              && ptr <= start && Holds(buf[..], start, r.0)
              && (next == NULL <==> r.1.Nothing?)
              && (next != NULL ==> start + |r.0| < next && Holds(buf[..], next, r.1.text))
    ensures forall k :: 0 <= k < ptr && k < buf.Length ==> buf[k] == old(buf[k])
  {
    hide Take;
    if ptr == NULL {
      return NULL, NULL;
    }
    assert t != "" ==> buf[..][ptr + 0] == t[0] && t[0] in t;
    if buf[ptr] == NUL {
      return NULL, ptr;
    }
    start := ptr;
    var str := ptr;
    ghost var name, rest := "", t;
    while true
      invariant ptr <= start && Reading(buf[..], start, str, name, rest)
      invariant Take(name, rest) == Take("", t)
      invariant forall k :: 0 <= k < ptr && k < buf.Length ==> buf[k] == old(buf[k])
      decreases |rest|
    {
      var p := StrChr(buf, str, rest);
      if p == NULL {
        TakeRun(name, rest, "");
        assert rest + "" == rest;
        TakeNothing(name + rest);
        Whole(buf[..], start, str, name, rest);
        return start, NULL;
      }
      UpToColon(buf[..], start, str, name, rest, p);
      ghost var after := rest[p - str + 1..];
      name, rest := name + rest[..p - str], after;
      if p == start {
        Skip(buf[..], p, after);
        start := start + 1;
        str := start;
        continue;
      }
      assert buf[..][start + (|name| - 1)] == name[|name| - 1];
      if buf[p - 1] != '\\' {
        TakeEnd(name, after);
        CutHere(buf[..], start, p, name, after);
        buf[p] := NUL;
        next := p + 1;
        return;
      }
      UnescapedTake(name, after);
      ghost var b := buf[..];
      ShiftLeft(buf, p, ":" + after);
      Unescaped(b, buf[..], start, p, name, after);
      str := p;
      name := name[..|name| - 1] + ":";
    }
  }

  lemma TakeNothing(name: string)
    ensures Take(name, "") == (name, Nothing)
  {
  }

  /** get_max_name_idx: the number of names. */
  method GetMaxNameIdx(input: string) returns (n: nat)
    requires NUL !in input
    ensures n == |Split(input)|
  {
    var buf := StrDup(input);
    var str := 0;
    ghost var t := input;
    n := 0;
    while true
      invariant str != NULL ==> Holds(buf[..], str, t)
      invariant fresh(buf)
      invariant n + (if str == NULL then 0 else |Split(t)|) == |Split(input)|
      decreases if str == NULL then 0 else |t| + 1
    {
      ghost var r := Take("", t);
      var name, next := GetNextName(buf, str, t);
      if name == NULL {
        break;
      }
      str := next;
      t := if r.1.More? then r.1.text else "";
      n := n + 1;
    }
  }

  method StrDup(input: string) returns (buf: array<char>)
    requires NUL !in input
    ensures fresh(buf) && Holds(buf[..], 0, input)
  {
    var text := input + [NUL];
    buf := new char[|text|](i requires 0 <= i < |text| => text[i]);
    assert buf[..] == text;
  }

  /** Copying a terminated string out of the buffer. */
  method ReadOut(buf: array<char>, p: int, ghost t: string) returns (s: string)
    requires Holds(buf[..], p, t)
    ensures s == t
  {
    NoneInside(buf[..], p, t);
    s := "";
    var q := p;
    while buf[q] != NUL
      invariant p <= q <= p + |t| && s == t[..q - p]
      decreases p + |t| - q
    {
      assert buf[..][p + (q - p)] == t[q - p];
      s := s + [buf[q]];
      q := q + 1;
    }
    assert buf[..][q] == NUL;
  }

  /** set_name_idx: the name at the index, counted round the list, and a slash.
      On the empty list the source divides by zero. */
  method SetNameIdx(input: string, index: nat) returns (target: string)
    requires NUL !in input && input != ""
    ensures |Split(input)| > 0 && target == Split(input)[index % |Split(input)|] + "/"
  {
    var max := GetMaxNameIdx(input);
    var idx := index % max;
    var buf := StrDup(input);
    var str, fname := 0, NULL;
    ghost var t := input;
    for cur := 0 to idx + 1
      invariant str != NULL ==> Holds(buf[..], str, t)
      invariant fresh(buf)
      invariant (if str == NULL then [] else Split(t)) == Split(input)[cur..]
      invariant cur > 0 ==> Holds(buf[..], fname, Split(input)[cur - 1])
      invariant cur > 0 && str != NULL ==> fname + |Split(input)[cur - 1]| < str
    {
      assert Split(input)[cur..][0] == Split(input)[cur];
      assert Split(input)[cur..][1..] == Split(input)[cur + 1..];
      ghost var r := Take("", t);
      fname, str := GetNextName(buf, str, t);
      t := if r.1.More? then r.1.text else "";
    }
    target := ReadOut(buf, fname, Split(input)[idx]);
    target := target + "/";
  }
}
