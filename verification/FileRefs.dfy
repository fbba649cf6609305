/**
 Reference counts of a job's files (filesetup.c, ioengines.c, io_u.c): a file
 is opened on demand, every unit that uses it holds a reference, and closing is
 deferred until the last unit is put.
 */
module FileRefs {

  /** `opens` and `closes` count calls that opened and closed the descriptor. */
  datatype File = File(open: bool, closing: bool, done: bool, references: int, opens: nat, closes: nat)

  /** holder[u] is the file of unit u, or -1. */
  datatype Files = Files(files: seq<File>, holder: seq<int>, nrOpen: int) {
    predicate Has(f: int) {
      0 <= f < |files|
    }

    predicate Usable(f: int) {
      Has(f) && files[f].open && !files[f].closing
    }
  }

  const NoFile: int := -1

  // ----- The four operations -----

  /** get_file; the source asserts that the file is open. */
  function GetFile(s: Files, f: int): Files
    requires s.Has(f)
  {
    s.(files := s.files[f := s.files[f].(references := s.files[f].references + 1)])
  }

  /** put_file: the last put closes the descriptor. */
  function PutFile(s: Files, f: int): Files
    requires s.Has(f)
  {
    var x := s.files[f];
    if !x.open then s
    else if x.references - 1 != 0 then s.(files := s.files[f := x.(references := x.references - 1)])
    else s.(files := s.files[f := x.(references := 0, open := false, closes := x.closes + 1)], nrOpen := s.nrOpen - 1)
  }

  /** td_io_open_file after the engine opened the descriptor. */
  function OpenFile(s: Files, f: int): Files
    requires s.Has(f)
  {
    var x := s.files[f];
    GetFile(s.(files := s.files[f := x.(open := true, closing := false, opens := x.opens + 1)],
              nrOpen := s.nrOpen + 1), f)
  }

  /** td_io_close_file */
  function CloseFile(s: Files, f: int): Files
    requires s.Has(f)
  {
    PutFile(s.(files := s.files[f := s.files[f].(closing := true)]), f)
  }

  function SetHolder(s: Files, u: nat, f: int): Files
    requires u < |s.holder|
  {
    s.(holder := s.holder[u := f])
  }

  // ----- Counting -----

  ghost function Holders(holder: seq<int>, f: int): nat {
    if holder == [] then 0
    else Holders(holder[..|holder| - 1], f) + if holder[|holder| - 1] == f then 1 else 0
  }

  ghost function OpenCount(files: seq<File>): nat {
    if files == [] then 0
    else OpenCount(files[..|files| - 1]) + if files[|files| - 1].open then 1 else 0
  }

  ghost function DoneCount(files: seq<File>): nat {
    if files == [] then 0
    else DoneCount(files[..|files| - 1]) + if files[|files| - 1].done then 1 else 0
  }

  lemma {:induction false} HoldersUpdate(holder: seq<int>, u: nat, g: int, f: int)
    requires u < |holder|
    ensures Holders(holder[u := g], f) == Holders(holder, f)
              - (if holder[u] == f then 1 else 0) + (if g == f then 1 else 0)
    decreases |holder|
  {
    var n := |holder| - 1;
    if u < n {
      HoldersUpdate(holder[..n], u, g, f);
      assert holder[u := g][..n] == holder[..n][u := g];
    } else {
      assert holder[u := g][..n] == holder[..n];
    }
  }

  lemma {:induction false} HoldersPositive(holder: seq<int>, u: nat)
    requires u < |holder|
    ensures Holders(holder, holder[u]) >= 1
    decreases |holder|
  {
    var n := |holder| - 1;
    if u < n {
      HoldersPositive(holder[..n], u);
    }
  }

  lemma {:induction false} CountsUpdate(files: seq<File>, f: nat, x: File)
    requires f < |files|
    ensures OpenCount(files[f := x]) == OpenCount(files) - (if files[f].open then 1 else 0) + (if x.open then 1 else 0)
    ensures DoneCount(files[f := x]) == DoneCount(files) - (if files[f].done then 1 else 0) + (if x.done then 1 else 0)
    decreases |files|
  {
    var n := |files| - 1;
    if f < n {
      CountsUpdate(files[..n], f, x);
      assert files[f := x][..n] == files[..n][f := x];
    } else {
      assert files[f := x][..n] == files[..n];
    }
  }

  lemma {:induction false} DoneBound(files: seq<File>)
    ensures DoneCount(files) <= |files|
    ensures DoneCount(files) == |files| ==> forall f :: 0 <= f < |files| ==> files[f].done
  {
    if files != [] {
      DoneBound(files[..|files| - 1]);
    }
  }

  // ----- The invariant -----

  /** While a file is open its references are the units holding it plus one
      unless it is closing; each open is matched by at most one close. */
  ghost predicate FileOk(s: Files, f: int)
    requires s.Has(f)
  {
    var x := s.files[f];
    && x.opens == x.closes + (if x.open then 1 else 0)
    && x.references == Holders(s.holder, f) + (if x.open && !x.closing then 1 else 0)
    && (x.open <==> x.references > 0)
    && (x.done ==> !x.open || x.closing)
  }

  ghost predicate Inv(s: Files) {
    && (forall f :: s.Has(f) ==> FileOk(s, f))
    && (forall u :: 0 <= u < |s.holder| ==> s.holder[u] == NoFile || s.Has(s.holder[u]))
    && s.nrOpen == OpenCount(s.files)
  }

  /** One file changes and one unit may take or drop it. */
  lemma TouchKeepsInv(s: Files, e: Files, f: int)
    requires Inv(s) && s.Has(f) && |e.files| == |s.files| && |e.holder| == |s.holder|
    requires e.files == s.files[f := e.files[f]]
    requires FileOk(e, f)
    requires e.holder == s.holder ||
             exists u :: 0 <= u < |s.holder| && e.holder == s.holder[u := e.holder[u]]
                         && s.holder[u] in {NoFile, f} && e.holder[u] in {NoFile, f}
    requires e.nrOpen - s.nrOpen == (if e.files[f].open then 1 else 0) - (if s.files[f].open then 1 else 0)
    ensures Inv(e)
  {
    CountsUpdate(s.files, f, e.files[f]);
    forall g | e.Has(g) ensures FileOk(e, g) {
      if g != f {
        assert FileOk(s, g);
        if e.holder != s.holder {
          var u :| 0 <= u < |s.holder| && e.holder == s.holder[u := e.holder[u]]
                   && s.holder[u] in {NoFile, f} && e.holder[u] in {NoFile, f};
          HoldersUpdate(s.holder, u, e.holder[u], g);
        }
      }
    }
  }

  lemma OpenKeepsInv(s: Files, f: int)
    requires Inv(s) && s.Has(f) && !s.files[f].open && !s.files[f].done
    ensures Inv(OpenFile(s, f)) && OpenFile(s, f).Usable(f) && OpenFile(s, f).nrOpen == s.nrOpen + 1
    ensures |OpenFile(s, f).files| == |s.files| && OpenFile(s, f).holder == s.holder
    ensures !OpenFile(s, f).files[f].done && DoneCount(OpenFile(s, f).files) == DoneCount(s.files)
  {
    assert FileOk(s, f);
    TouchKeepsInv(s, OpenFile(s, f), f);
    SameDone(s.files, OpenFile(s, f).files, f);
  }

  /** A close request on a usable file closes it now or leaves it closing. */
  lemma CloseKeepsInv(s: Files, f: int)
    requires Inv(s) && s.Usable(f)
    ensures Inv(CloseFile(s, f)) && !CloseFile(s, f).Usable(f) && CloseFile(s, f).nrOpen <= s.nrOpen
    ensures CloseFile(s, f).files[f].open <==> Holders(s.holder, f) > 0
  {
    assert FileOk(s, f);
    TouchKeepsInv(s, CloseFile(s, f), f);
  }

  ghost function Attach(s: Files, u: nat, f: int): Files
    requires s.Has(f) && u < |s.holder|
  {
    GetFile(SetHolder(s, u, f), f)
  }

  ghost function Detach(s: Files, u: nat): Files
    requires u < |s.holder| && s.Has(s.holder[u])
  {
    SetHolder(PutFile(s, s.holder[u]), u, NoFile)
  }

  lemma AttachKeepsInv(s: Files, u: nat, f: int)
    requires Inv(s) && s.Usable(f) && u < |s.holder| && s.holder[u] == NoFile
    ensures Inv(Attach(s, u, f)) && Attach(s, u, f).Usable(f) && Attach(s, u, f).nrOpen == s.nrOpen
  {
    assert FileOk(s, f);
    HoldersUpdate(s.holder, u, f, f);
    var e := Attach(s, u, f);
    assert e.holder == s.holder[u := e.holder[u]];
    TouchKeepsInv(s, e, f);
  }

  /** A put by the last holder of a closing file closes the descriptor; any
      other put leaves it open. */
  lemma DetachKeepsInv(s: Files, u: nat)
    requires Inv(s) && u < |s.holder| && s.Has(s.holder[u])
    ensures Inv(Detach(s, u)) && Detach(s, u).nrOpen <= s.nrOpen
    ensures var f := s.holder[u]; var x := s.files[f]; var y := Detach(s, u).files[f];
            && x.open && y.closing == x.closing && y.done == x.done
            && (y.closes == x.closes + 1 <==> x.closing && Holders(s.holder, f) == 1)
            && (y.closes == x.closes <==> y.open)
  {
    var f := s.holder[u];
    assert FileOk(s, f);
    HoldersPositive(s.holder, u);
    HoldersUpdate(s.holder, u, NoFile, f);
    var e := Detach(s, u);
    assert e.holder == s.holder[u := e.holder[u]];
    TouchKeepsInv(s, e, f);
  }

  /** Closing an open file keeps the counts right exactly when it is not
      closing already: a second request would drop a unit's reference. */
  lemma CloseExact(s: Files, f: int)
    requires Inv(s) && s.Has(f) && s.files[f].open
    ensures Inv(CloseFile(s, f)) <==> !s.files[f].closing
  {
    assert FileOk(s, f);
    if s.files[f].closing {
      assert !FileOk(CloseFile(s, f), f);
    } else {
      CloseKeepsInv(s, f);
    }
  }

  /** Such a state is reached: a unit takes a usable file, the file is asked to
      close and waits for the unit; a second request takes the unit's reference
      and, if no other unit holds the file, closes the descriptor under it. */
  lemma SecondCloseDropsReference(s: Files, u: nat, f: int)
    requires Inv(s) && s.Usable(f) && u < |s.holder| && s.holder[u] == NoFile
    ensures var t := CloseFile(Attach(s, u, f), f);
            && Inv(t) && t.files[f].open && t.files[f].closing && t.holder[u] == f
            && !Inv(CloseFile(t, f))
            && CloseFile(t, f).holder[u] == f
            && (CloseFile(t, f).files[f].open <==> Holders(s.holder, f) > 0)
  {
    AttachKeepsInv(s, u, f);
    HoldersUpdate(s.holder, u, f, f);
    CloseKeepsInv(Attach(s, u, f), f);
    var t := CloseFile(Attach(s, u, f), f);
    CloseExact(t, f);
    assert FileOk(t, f);
  }

  /** The files and units of a job that has just been set up. */
  function NewFiles(nrFiles: nat, nrUnits: nat): Files {
    Files(seq(nrFiles, _ => File(false, false, false, 0, 0, 0)), seq(nrUnits, _ => NoFile), 0)
  }

  lemma NewFilesInv(nrFiles: nat, nrUnits: nat)
    ensures Inv(NewFiles(nrFiles, nrUnits)) && DoneCount(NewFiles(nrFiles, nrUnits).files) == 0
  {
    var s := NewFiles(nrFiles, nrUnits);
    NewCounts(s.files);
    forall f | s.Has(f) ensures FileOk(s, f) {
      Unheld(s.holder, f);
    }
  }

  /** From the start: open, take, close, close again. */
  lemma ClosedWhileHeld(nrFiles: nat, nrUnits: nat, u: nat, f: nat)
    requires u < nrUnits && f < nrFiles
    ensures var t := CloseFile(Attach(OpenFile(NewFiles(nrFiles, nrUnits), f), u, f), f);
            && Inv(t) && t.files[f].open && t.files[f].closing && t.holder[u] == f
            && !Inv(CloseFile(t, f)) && !CloseFile(t, f).files[f].open && CloseFile(t, f).holder[u] == f
  {
    var s := NewFiles(nrFiles, nrUnits);
    NewFilesInv(nrFiles, nrUnits);
    OpenKeepsInv(s, f);
    Unheld(s.holder, f);
    SecondCloseDropsReference(OpenFile(s, f), u, f);
  }

  // ----- Closing every file -----

  /** close_files up to file n: whatever is open is asked to close. */
  ghost function CloseFirst(s: Files, n: nat): (t: Files)
    requires n <= |s.files|
    ensures |t.files| == |s.files| && t.holder == s.holder
    ensures forall g :: n <= g < |s.files| ==> t.files[g] == s.files[g]
  {
    if n == 0 then s
    else
      var t := CloseFirst(s, n - 1);
      if t.files[n - 1].open then CloseFile(t, n - 1) else t
  }

  ghost predicate NoneClosing(s: Files) {
    forall f :: s.Has(f) ==> !(s.files[f].open && s.files[f].closing)
  }

  /** What a close request does to the file itself. */
  function AfterClose(x: File): File {
    if !x.open then x.(closing := true)
    else if x.references - 1 != 0 then x.(closing := true, references := x.references - 1)
    else x.(closing := true, references := 0, open := false, closes := x.closes + 1)
  }

  lemma CloseIs(s: Files, f: int)
    requires s.Has(f)
    ensures var e := CloseFile(s, f);
            && e.files == s.files[f := AfterClose(s.files[f])] && e.holder == s.holder
            && e.nrOpen <= s.nrOpen && DoneCount(e.files) == DoneCount(s.files)
  {
    SameDone(s.files, CloseFile(s, f).files, f);
  }

  lemma {:induction false} ClosedOneByOne(s: Files, n: nat)
    requires n <= |s.files|
    ensures forall g :: 0 <= g < n ==>
              CloseFirst(s, n).files[g] == if s.files[g].open then AfterClose(s.files[g]) else s.files[g]
    ensures DoneCount(CloseFirst(s, n).files) == DoneCount(s.files)
    ensures CloseFirst(s, n).nrOpen <= s.nrOpen
  {
    hide CloseFile, AfterClose, DoneCount;
    if n > 0 {
      ClosedOneByOne(s, n - 1);
      CloseIs(CloseFirst(s, n - 1), n - 1);
    }
  }

  lemma {:induction false} ClosingKeepsInv(s: Files, n: nat)
    requires n <= |s.files| && Inv(s) && NoneClosing(s)
    ensures Inv(CloseFirst(s, n))
  {
    if n > 0 {
      ClosingKeepsInv(s, n - 1);
      var t := CloseFirst(s, n - 1);
      if t.files[n - 1].open {
        CloseKeepsInv(t, n - 1);
      }
    }
  }

  lemma WaitingIsMiscounted(s: Files, f: int)
    requires s.Has(f) && FileOk(s, f) && s.files[f].open && s.files[f].closing
    ensures !FileOk(CloseFirst(s, |s.files|), f)
  {
    ClosedOneByOne(s, |s.files|);
    hide Holders, CloseFirst, DoneCount;
  }

  /** close_files keeps the counts right exactly when no file was waiting to be
      closed already. */
  lemma CloseFilesExact(s: Files)
    requires Inv(s)
    ensures Inv(CloseFirst(s, |s.files|)) <==> NoneClosing(s)
  {
    if NoneClosing(s) {
      ClosingKeepsInv(s, |s.files|);
    } else {
      var f :| s.Has(f) && s.files[f].open && s.files[f].closing;
      WaitingIsMiscounted(s, f);
      hide FileOk, OpenCount, CloseFirst;
      assert CloseFirst(s, |s.files|).Has(f);
    }
  }

  /** With no file held, nothing waits, and every descriptor ends up closed. */
  lemma AllWillClose(s: Files)
    requires Inv(s) && forall u :: 0 <= u < |s.holder| ==> s.holder[u] == NoFile
    ensures NoneClosing(s)
    ensures var e := CloseFirst(s, |s.files|);
            && e.nrOpen == 0
            && forall f :: e.Has(f) ==> !e.files[f].open && e.files[f].opens == e.files[f].closes
  {
    forall f | s.Has(f)
      ensures FileOk(s, f) && Holders(s.holder, f) == 0
    {
      Unheld(s.holder, f);
    }
    var e := CloseFirst(s, |s.files|);
    ClosedOneByOne(s, |s.files|);
    CloseFilesExact(s);
    forall f | e.Has(f) ensures !e.files[f].open && e.files[f].opens == e.files[f].closes {
      assert FileOk(e, f) && FileOk(s, f);
      assert Holders(s.holder, f) == 0;
    }
    AllClosed(e.files);
  }

  // ----- Choosing files for units -----

  datatype Choice = Busy | Nothing | Chosen(f: int)

  /** Done, on its way out, or refusing to open. */
  ghost predicate Skipped(s: Files, f: int, opens: bool)
    requires s.Has(f)
  {
    s.files[f].done || (s.files[f].open && s.files[f].closing) || (!s.files[f].open && !opens)
  }

  /** The position k steps on from `first`, around n files. */
  function Around(n: nat, first: nat, k: nat): nat {
    if first + k < n then first + k else if first + k < 2 * n then first + k - n else 0
  }

  /** Going around from `first`, the k files before position k are skipped. */
  ghost predicate SkippedUpTo(s: Files, canOpen: nat -> bool, first: nat, k: nat) {
    && first < |s.files| && k <= |s.files|
    && forall j :: 0 <= j < k ==> Skipped(s, Around(|s.files|, first, j), canOpen(Around(|s.files|, first, j)))
  }

  /** The answer of one turn around the files: the first one not skipped, unless
      it would have to be opened over the limit; `next` is the position after. */
  ghost predicate TurnEnds(s: Files, canOpen: nat -> bool, limit: int, first: nat, r: Choice, next: nat) {
    && first < |s.files|
    && (r.Nothing? ==> SkippedUpTo(s, canOpen, first, |s.files|) && next == first)
    && (!r.Nothing? ==> exists k :: StopsAt(s, canOpen, limit, first, k, r, next))
  }

  ghost predicate StopsAt(s: Files, canOpen: nat -> bool, limit: int, first: nat, k: nat, r: Choice, next: nat) {
    && k < |s.files| && SkippedUpTo(s, canOpen, first, k)
    && next == Around(|s.files|, first, k + 1)
    && var f := Around(|s.files|, first, k);
       var full := !s.files[f].open && s.nrOpen >= limit;
       && !s.files[f].done
       && (r.Busy? ==> full)
       && (!r.Busy? ==> !full && !Skipped(s, f, canOpen(f)) && r == Chosen(f))
  }

  lemma AllAround(s: Files, canOpen: nat -> bool, first: nat)
    requires SkippedUpTo(s, canOpen, first, |s.files|)
    ensures forall f :: s.Has(f) ==> Skipped(s, f, canOpen(f))
  {
    forall f | s.Has(f) ensures Skipped(s, f, canOpen(f)) {
      var j := if first <= f then f - first else f + |s.files| - first;
      assert Around(|s.files|, first, j) == f;
    }
  }

  /** A job's files and units.  Whether a descriptor opens, whether a unit can
      be filled from a file and how long to stay on a file are inputs. */
  class FileService {
    var s: Files
    var nrDone: int
    var nextFile: int
    var serviceFile: int
    const openFiles: int

    ghost predicate Valid()
      reads this
    {
      && Inv(s) && s.nrOpen <= openFiles && |s.files| > 0 && 0 <= nextFile < |s.files|
      && nrDone == DoneCount(s.files)
      && (serviceFile == NoFile || s.Has(serviceFile))
    }

    constructor (nrFiles: nat, nrUnits: nat, limit: nat)
      requires nrFiles > 0
      ensures Valid() && openFiles == limit && s == NewFiles(nrFiles, nrUnits)
    {
      s := NewFiles(nrFiles, nrUnits);
      nrDone, nextFile, serviceFile, openFiles := 0, 0, NoFile, limit;
      new;
      NewFilesInv(nrFiles, nrUnits);
    }

    /** get_next_file_rr: once around the files from the current position.  It
        takes the first file not skipped, opening it if need be, and stops with
        Busy where that would pass the limit. */
    method GetNextFileRr(canOpen: nat -> bool) returns (r: Choice)
      requires Valid()
      modifies this`s, this`nextFile
      ensures Valid() && |s.files| == |old(s).files| && s.holder == old(s).holder
      ensures s == if r.Chosen? && old(s).Has(r.f) && !old(s).files[r.f].open then OpenFile(old(s), r.f) else old(s)
      ensures r.Chosen? ==> s.Usable(r.f) && !s.files[r.f].done
      ensures TurnEnds(old(s), canOpen, openFiles, old(nextFile), r, nextFile)
    {
      hide Inv, OpenFile, DoneCount;
      var n := |s.files|;
      var first := nextFile;
      var k := 0;
      while true
        invariant s == old(s) && 0 <= k < n && 0 <= first < n
        invariant nextFile == Around(n, first, k)
        invariant SkippedUpTo(s, canOpen, first, k)
        decreases n - k
      {
        var f := nextFile;
        nextFile := if nextFile + 1 >= n then 0 else nextFile + 1;
        if !s.files[f].done {
          var justOpened := false;
          if !s.files[f].open {
            if s.nrOpen >= openFiles {
              assert StopsAt(s, canOpen, openFiles, first, k, Busy, nextFile);
              return Busy;
            }
            if canOpen(f) {
              OpenKeepsInv(s, f);
              s := OpenFile(s, f);
              justOpened := true;
            }
          }
          if s.files[f].open && !s.files[f].closing {
            assert StopsAt(old(s), canOpen, openFiles, first, k, Chosen(f), nextFile);
            return Chosen(f);
          }
          assert !justOpened;   // a file just opened is never closed again here
        }
        k := k + 1;
        if nextFile == first {
          break;
        }
      }
      return Nothing;
    }

    /** The file being served, if it can go on being served. */
    predicate Serving()
      reads this
    {
      s.Usable(serviceFile)
    }

    /** __get_next_file under round-robin or sequential service: stay on the file
        being served, or go around.  No file only if all are skipped. */
    method GetNextFile(canOpen: nat -> bool, stay: bool) returns (r: Choice)
      requires Valid()
      modifies this`s, this`nextFile, this`serviceFile
      ensures Valid() && |s.files| == |old(s).files| && s.holder == old(s).holder
      ensures s == if r.Chosen? && old(s).Has(r.f) && !old(s).files[r.f].open then OpenFile(old(s), r.f) else old(s)
      ensures r.Chosen? ==> s.Usable(r.f) && !s.files[r.f].done && serviceFile == r.f
      ensures r.Busy? ==> s.nrOpen >= openFiles && serviceFile == old(serviceFile)
      ensures r.Nothing? ==> forall f :: s.Has(f) ==> Skipped(s, f, canOpen(f))
      ensures stay && old(Serving()) ==> r == Chosen(old(serviceFile)) && nextFile == old(nextFile)
      ensures r.Busy? || (!(stay && old(Serving())) && nrDone < |s.files|) ==>
                TurnEnds(old(s), canOpen, openFiles, old(nextFile), r, nextFile)
    {
      DoneBound(s.files);
      if s.Usable(serviceFile) {
        assert FileOk(s, serviceFile);
      }
      hide Inv, OpenFile, DoneCount, TurnEnds;
      if nrDone >= |s.files| {
        return Nothing;
      }
      if serviceFile != NoFile && s.files[serviceFile].open && !s.files[serviceFile].closing && stay {
        return Chosen(serviceFile);
      }
      r := GetNextFileRr(canOpen);
      NothingMeansAll(old(s), canOpen, openFiles, old(nextFile), r, nextFile);
      if r.Busy? {
        return;
      }
      serviceFile := if r.Chosen? then r.f else NoFile;
    }

    /** A file that has nothing more to offer is closed and marked done. */
    method RetireFile(f: int)
      requires Valid() && s.Usable(f) && !s.files[f].done
      modifies this`s, this`nrDone
      ensures Valid() && |s.files| == |old(s).files| && s.holder == old(s).holder
      ensures nrDone == old(nrDone) + 1 <= |s.files| && s.Has(f) && s.files[f].done
      ensures forall g :: s.Has(g) && g != f ==> s.files[g] == old(s).files[g]
    {
      RetireKeepsInv(s, f);
      s := CloseFile(s, f);
      s := s.(files := s.files[f := s.files[f].(done := true)]);
      nrDone := nrDone + 1;
      DoneBound(s.files);
    }

    /** One round of set_io_u_file on the file found: the unit keeps it, or it is
        put back, closed and marked done. */
    method TryFile(u: nat, f: int, fills: bool)
      requires Valid() && s.Usable(f) && !s.files[f].done && u < |s.holder| && s.holder[u] == NoFile
      modifies this`s, this`nrDone
      ensures Valid() && |s.files| == |old(s).files|
      ensures fills ==> s == Attach(old(s), u, f) && nrDone == old(nrDone) && s.Usable(f)
      ensures !fills ==> s.holder == old(s).holder && nrDone == old(nrDone) + 1 <= |s.files|
      ensures forall g :: s.Has(g) && g != f ==> s.files[g] == old(s).files[g]
      ensures s.Has(f) && s.files[f].done == !fills
    {
      AttachKeepsInv(s, u, f);
      AttachDetach(s, u, f);
      SameDone(s.files, Attach(s, u, f).files, f);
      ghost var before := s;
      s := GetFile(SetHolder(s, u, f), f);
      if !fills {
        s := SetHolder(PutFile(s, f), u, NoFile);
        assert s == before;
        RetireFile(f);
      }
    }

    /** set_io_u_file: files that cannot fill the unit are closed and marked
        done; the loop ends because every round marks one more.  A descriptor that
        does not open in one round may open in a later one.  The unit goes without
        a file only when the turn comes to a file that cannot be opened within the
        limit, or when every file is skipped in the last round,
        and then no file that was usable fills it. */
    method SetIoUFile(u: nat, canOpen: nat -> nat -> bool, fills: nat -> bool, stay: nat -> bool)
        returns (r: Choice, round: nat)
      requires Valid() && u < |s.holder| && s.holder[u] == NoFile
      modifies this
      ensures Valid() && |s.files| == |old(s).files| && |s.holder| == |old(s).holder|
      ensures r.Chosen? ==> s.Usable(r.f) && fills(r.f) && s.holder == old(s).holder[u := r.f]
      ensures !r.Chosen? ==> s.holder == old(s).holder
      ensures nrDone == old(nrDone) + round
      ensures forall f :: s.Has(f) && s.files[f].done && !old(s).files[f].done ==> !fills(f)
      ensures forall f :: old(s).Usable(f) && fills(f) ==> s.Usable(f)
      ensures r.Busy? ==> s.nrOpen >= openFiles
      ensures r.Busy? ==> exists first :: TurnEnds(s, canOpen(round), openFiles, first, r, nextFile)
      ensures r.Nothing? ==> forall f :: s.Has(f) ==> Skipped(s, f, canOpen(round)(f))
      ensures r.Nothing? ==> forall f :: old(s).Usable(f) ==> !fills(f)
      ensures old(Serving()) && stay(0) && fills(old(serviceFile)) ==>
                r == Chosen(old(serviceFile)) && s == Attach(old(s), u, old(serviceFile))
    {
      UsableNotDone(s);
      assert OnlyRetired(s, s, fills);
      hide Inv, DoneCount, OnlyRetired, OpenFile, Attach, TurnEnds;
      round := 0;
      while true
        invariant Valid() && |s.files| == |old(s).files| && s.holder == old(s).holder
        invariant nrDone == old(nrDone) + round
        invariant round == 0 ==> s == old(s) && serviceFile == old(serviceFile)
        invariant OnlyRetired(old(s), s, fills)
        invariant old(Serving()) && stay(0) && fills(old(serviceFile)) ==> round == 0
        decreases |s.files| - nrDone
      {
        ghost var was, at := s, nextFile;
        r := GetNextFile(canOpen(round), stay(round));
        if !r.Chosen? {
          assert r.Busy? ==> TurnEnds(s, canOpen(round), openFiles, at, r, nextFile);
          WhatIsLeft(old(s), s, fills);
          return;
        }
        var f := r.f;
        ghost var found := s;
        TryFile(u, f, fills(f));
        OneTried(old(s), was, found, s, fills, f);
        if fills(f) {
          return;
        }
        round := round + 1;
      }
    }

    /** The file part of put_io_u. */
    method PutIoUFile(u: nat)
      requires Valid() && u < |s.holder|
      modifies this`s
      ensures Valid() && |s.files| == |old(s).files|
      ensures s == if old(s).holder[u] == NoFile then old(s) else Detach(old(s), u)
    {
      if s.holder[u] != NoFile {
        DetachKeepsInv(s, u);
        SameDone(s.files, Detach(s, u).files, s.holder[u]);
        s := SetHolder(PutFile(s, s.holder[u]), u, NoFile);
      }
    }

    /** close_files: every open file is asked to close.  The counts stay right
        exactly when none was waiting for that already; once no unit holds a file,
        every descriptor is closed and as many closes as opens have been made. */
    method CloseFiles()
      requires Valid()
      modifies this`s
      ensures s == CloseFirst(old(s), |old(s).files|)
      ensures Valid() <==> NoneClosing(old(s))
      ensures (forall u :: 0 <= u < |old(s).holder| ==> old(s).holder[u] == NoFile) ==>
                && Valid() && s.nrOpen == 0
                && forall f :: s.Has(f) ==> !s.files[f].open && s.files[f].opens == s.files[f].closes
    {
      hide Inv, CloseFile, NoneClosing, DoneCount;
      CloseFilesExact(s);
      ClosedOneByOne(s, |s.files|);
      if forall u :: 0 <= u < |s.holder| ==> s.holder[u] == NoFile {
        AllWillClose(s);
      }
      for f := 0 to |s.files|
        invariant s == CloseFirst(old(s), f)
        invariant |s.files| == |old(s).files|
      {
        if s.files[f].open {
          s := CloseFile(s, f);
        }
      }
    }
  }

  lemma NothingMeansAll(s: Files, canOpen: nat -> bool, limit: int, first: nat, r: Choice, next: nat)
    requires TurnEnds(s, canOpen, limit, first, r, next)
    ensures r.Nothing? ==> forall f :: s.Has(f) ==> Skipped(s, f, canOpen(f))
    ensures r.Busy? ==> s.nrOpen >= limit
  {
    if r.Nothing? {
      AllAround(s, canOpen, first);
    }
  }

  lemma UsableNotDone(s: Files)
    requires Inv(s)
    ensures forall f :: s.Usable(f) ==> !s.files[f].done
  {
    forall f | s.Usable(f) ensures !s.files[f].done {
      assert FileOk(s, f);
    }
  }

  /** Since s0, no file that fills the unit was marked done or taken away. */
  ghost predicate OnlyRetired(s0: Files, s: Files, fills: nat -> bool) {
    && |s.files| == |s0.files|
    && (forall f :: s.Has(f) && s.files[f].done && !s0.files[f].done ==> !fills(f))
    && (forall f :: s0.Usable(f) && fills(f) ==> s.Usable(f) && !s.files[f].done)
  }

  /** A file is found, opened if need be, and tried. */
  lemma OneTried(s0: Files, was: Files, found: Files, now: Files, fills: nat -> bool, f: int)
    requires OnlyRetired(s0, was, fills) && was.Has(f) && !was.files[f].done
    requires found == if !was.files[f].open then OpenFile(was, f) else was
    requires |now.files| == |found.files| && (forall g :: now.Has(g) && g != f ==> now.files[g] == found.files[g])
    requires now.files[f].done == !fills(f) && (fills(f) ==> now.Usable(f))
    ensures OnlyRetired(s0, now, fills)
    ensures forall g :: now.Has(g) && now.files[g].done && !s0.files[g].done ==> !fills(g)
    ensures forall g :: s0.Usable(g) && fills(g) ==> now.Usable(g)
  {
    assert forall g :: was.Has(g) && g != f ==> found.files[g] == was.files[g];
  }

  lemma WhatIsLeft(s0: Files, s: Files, fills: nat -> bool)
    requires OnlyRetired(s0, s, fills)
    ensures forall f :: s.Has(f) && s.files[f].done && !s0.files[f].done ==> !fills(f)
    ensures forall f, opens :: s0.Usable(f) && fills(f) ==> s.Has(f) && s.Usable(f) && !Skipped(s, f, opens)
  {
  }

  /** Taking a usable file and putting it back changes nothing. */
  lemma AttachDetach(s: Files, u: nat, f: int)
    requires Inv(s) && s.Usable(f) && u < |s.holder| && s.holder[u] == NoFile
    ensures Detach(Attach(s, u, f), u) == s
  {
    assert FileOk(s, f);
    var e := Detach(Attach(s, u, f), u);
    assert e.files == s.files && e.holder == s.holder;
  }

  lemma SameDone(files: seq<File>, files': seq<File>, f: int)
    requires 0 <= f < |files| == |files'| && files' == files[f := files'[f]] && files'[f].done == files[f].done
    ensures DoneCount(files') == DoneCount(files)
  {
    CountsUpdate(files, f, files'[f]);
  }

  /** Closing a file for good and marking it done. */
  lemma RetireKeepsInv(s: Files, f: int)
    requires Inv(s) && s.Usable(f) && !s.files[f].done
    ensures var c := CloseFile(s, f);
            var e := c.(files := c.files[f := c.files[f].(done := true)]);
            && Inv(e) && e.nrOpen <= s.nrOpen && DoneCount(e.files) == DoneCount(s.files) + 1
            && forall g :: s.Has(g) && g != f ==> e.files[g] == s.files[g]
  {
    var c := CloseFile(s, f);
    var e := c.(files := c.files[f := c.files[f].(done := true)]);
    CloseKeepsInv(s, f);
    assert FileOk(c, f);
    TouchKeepsInv(c, e, f);
    SameDone(s.files, c.files, f);
    CountsUpdate(c.files, f, e.files[f]);
  }

  lemma {:induction false} Unheld(holder: seq<int>, f: int)
    requires f != NoFile && forall u :: 0 <= u < |holder| ==> holder[u] == NoFile
    ensures Holders(holder, f) == 0
  {
    if holder != [] {
      Unheld(holder[..|holder| - 1], f);
    }
  }

  lemma {:induction false} AllClosed(files: seq<File>)
    requires forall f :: 0 <= f < |files| ==> !files[f].open
    ensures OpenCount(files) == 0
  {
    if files != [] {
      AllClosed(files[..|files| - 1]);
    }
  }

  lemma {:induction false} NewCounts(files: seq<File>)
    requires forall f :: 0 <= f < |files| ==> files[f] == File(false, false, false, 0, 0, 0)
    ensures OpenCount(files) == 0 && DoneCount(files) == 0
    decreases |files|
  {
    if files != [] {
      NewCounts(files[..|files| - 1]);
    }
  }
}
