/** The snapshot taken before the book is opened: book and journal with their sidecars are
    copied into a directory named "<today>.tmp", which is then renamed into place, and the
    oldest dated directories are pruned. Every file step may work, fail, or be the last one
    before the process stops. */
module Backup {
  import opened Stamps
  import opened TextOrder

  type Content = string

  datatype Path = Path(folder: string, name: Name)

  datatype Entry = Folder(files: map<Name, Content>) | Plain

  datatype Fate = Works | Fails | Stops

  /** Skipped: today's snapshot exists. Failed: assembling it threw. Escaped: listing the
      directory for pruning threw, with the snapshot in place. Stopped: the process died. */
  datatype Ending = Skipped | Completed | Failed | Escaped | Stopped

  const SUFFIXES: seq<string> := ["", "-wal", "-shm", "-journal"]

  function TmpOf(stamp: Name): Name {
    stamp + ".tmp"
  }

  function Sidecar(p: Path, i: nat): Path
    requires i < |SUFFIXES|
  {
    Path(p.folder, p.name + SUFFIXES[i])
  }

  /** The part exists, and the test for it says so: one that errors counts as absence. */
  predicate Copied(live: map<Path, Content>, p: Path, tests: seq<Fate>, i: nat) {
    i < |tests| && i < |SUFFIXES| && tests[i].Works? && Sidecar(p, i) in live
  }

  /** What copying a file and its sidecars adds up to, after these existence tests. */
  function Copies(live: map<Path, Content>, p: Path, tests: seq<Fate>): map<Name, Content>
    requires |tests| <= |SUFFIXES|
  {
    if tests == [] then map[]
    else
      var n := |tests| - 1;
      var front := Copies(live, p, tests[..n]);
      if Copied(live, p, tests, n) then front[Sidecar(p, n).name := live[Sidecar(p, n)]] else front
  }

  /** How the existence tests of a run went, part by part. */
  datatype Tests = Tests(book: seq<Fate>, journal: seq<Fate>)

  /** What is copied after these tests. */
  function Snapshot(live: map<Path, Content>, book: Path, journal: Path, t: Tests): map<Name, Content>
    requires |t.book| == |SUFFIXES| == |t.journal|
  {
    Copies(live, book, t.book) + Copies(live, journal, t.journal)
  }

  lemma SidecarNames(p: Path, i: nat, j: nat)
    requires i < j < |SUFFIXES|
    ensures Sidecar(p, i).name != Sidecar(p, j).name
  {
    if i == 0 {
      assert |Sidecar(p, i).name| < |Sidecar(p, j).name|;
    } else {
      var k := |p.name|;
      assert Sidecar(p, i).name[k + 1] == SUFFIXES[i][1] && Sidecar(p, j).name[k + 1] == SUFFIXES[j][1];
    }
  }

  /** Copies holds just the parts found to exist, each with its live content. */
  lemma {:induction false} CopiesAreExact(live: map<Path, Content>, p: Path, tests: seq<Fate>)
    requires |tests| <= |SUFFIXES|
    ensures forall i :: 0 <= i < |tests| && Copied(live, p, tests, i) ==>
                          Sidecar(p, i).name in Copies(live, p, tests)
                          && Copies(live, p, tests)[Sidecar(p, i).name] == live[Sidecar(p, i)]
    ensures forall f :: f in Copies(live, p, tests) ==>
                          exists i :: 0 <= i < |tests| && Copied(live, p, tests, i) && Sidecar(p, i).name == f
  {
    if tests != [] {
      var n := |tests| - 1;
      CopiesAreExact(live, p, tests[..n]);
      forall i | 0 <= i < n
        ensures Copied(live, p, tests, i) <==> Copied(live, p, tests[..n], i)
        ensures Sidecar(p, i).name != Sidecar(p, n).name
      {
        SidecarNames(p, i, n);
      }
    }
  }

  /** This live file is there with its live content. */
  predicate HasPart(files: map<Name, Content>, live: map<Path, Content>, part: Path)
    requires part in live
  {
    part.name in files && files[part.name] == live[part]
  }

  /** Every part of the file that exists is there with its live content. */
  predicate HoldsAll(files: map<Name, Content>, live: map<Path, Content>, p: Path) {
    forall i :: 0 <= i < |SUFFIXES| && Sidecar(p, i) in live ==>
      HasPart(files, live, Sidecar(p, i))
  }

  /** Every part that exists was found to, or else lies there already as it is now. */
  predicate NoneMissed(live: map<Path, Content>, p: Path, tests: seq<Fate>, stale: map<Name, Content>) {
    forall i :: 0 <= i < |SUFFIXES| && Sidecar(p, i) in live ==>
      Copied(live, p, tests, i) || HasPart(stale, live, Sidecar(p, i))
  }

  lemma BookPart(live: map<Path, Content>, book: Path, journal: Path, rest: map<Name, Content>, t: Tests, i: nat)
    requires |t.book| == |SUFFIXES| == |t.journal| && !Clash(live, book, journal)
    requires i < |SUFFIXES| && Sidecar(book, i) in live
    ensures HasPart(rest + Snapshot(live, book, journal, t), live, Sidecar(book, i)) <==>
            Copied(live, book, t.book, i) || HasPart(rest, live, Sidecar(book, i))
  {
    CopiesAreExact(live, book, t.book);
    CopiesAreExact(live, journal, t.journal);
    OnlyOwnName(live, book, t.book, i);
    assert Sidecar(book, i).name !in Copies(live, journal, t.journal);
  }

  lemma JournalPart(live: map<Path, Content>, book: Path, journal: Path, rest: map<Name, Content>, t: Tests, i: nat)
    requires |t.book| == |SUFFIXES| == |t.journal| && !Clash(live, book, journal)
    requires i < |SUFFIXES| && Sidecar(journal, i) in live
    ensures HasPart(rest + Snapshot(live, book, journal, t), live, Sidecar(journal, i)) <==>
            Copied(live, journal, t.journal, i) || HasPart(rest, live, Sidecar(journal, i))
  {
    CopiesAreExact(live, book, t.book);
    CopiesAreExact(live, journal, t.journal);
    OnlyOwnName(live, journal, t.journal, i);
    assert Sidecar(journal, i).name !in Copies(live, book, t.book);
  }

  /** The published directory holds every live file exactly if no existence test of a live part
      failed, but for parts of which an earlier attempt has left a copy that is still good. */
  lemma PublishedIsComplete(live: map<Path, Content>, book: Path, journal: Path,
                            root: map<Name, Entry>, today: Name, left: set<Name>, f: Fate, t: Tests)
    requires |t.book| == |SUFFIXES| == |t.journal| && !Clash(live, book, journal)
    ensures var files := Made(live, book, journal, root, today, left, f, t).files;
            var rest := Leftover(root, TmpOf(today), left, f);
            HoldsAll(files, live, book) && HoldsAll(files, live, journal) <==>
            NoneMissed(live, book, t.book, rest) && NoneMissed(live, journal, t.journal, rest)
  {
    var rest := Leftover(root, TmpOf(today), left, f);
    forall i: nat | i < |SUFFIXES| && Sidecar(book, i) in live
      ensures HasPart(rest + Snapshot(live, book, journal, t), live, Sidecar(book, i)) <==>
              Copied(live, book, t.book, i) || HasPart(rest, live, Sidecar(book, i))
    {
      BookPart(live, book, journal, rest, t, i);
    }
    forall i: nat | i < |SUFFIXES| && Sidecar(journal, i) in live
      ensures HasPart(rest + Snapshot(live, book, journal, t), live, Sidecar(journal, i)) <==>
              Copied(live, journal, t.journal, i) || HasPart(rest, live, Sidecar(journal, i))
    {
      JournalPart(live, book, journal, rest, t, i);
    }
  }

  /** With nothing left from before, exactly if no existence test of a live part failed. */
  lemma CleanStartIsComplete(live: map<Path, Content>, book: Path, journal: Path,
                             root: map<Name, Entry>, today: Name, left: set<Name>, f: Fate, t: Tests)
    requires |t.book| == |SUFFIXES| == |t.journal| && !Clash(live, book, journal)
    requires f.Works? || TmpOf(today) !in root
    ensures var files := Made(live, book, journal, root, today, left, f, t).files;
            HoldsAll(files, live, book) && HoldsAll(files, live, journal) <==>
            && (forall i :: 0 <= i < |SUFFIXES| && Sidecar(book, i) in live ==> t.book[i].Works?)
            && (forall i :: 0 <= i < |SUFFIXES| && Sidecar(journal, i) in live ==> t.journal[i].Works?)
  {
    PublishedIsComplete(live, book, journal, root, today, left, f, t);
    forall i | 0 <= i < |SUFFIXES|
      ensures Sidecar(book, i) in live ==> (Copied(live, book, t.book, i) <==> t.book[i].Works?)
      ensures Sidecar(journal, i) in live ==> (Copied(live, journal, t.journal, i) <==> t.journal[i].Works?)
    {
    }
  }

  /** The file's own name, or that of one of its sidecars. */
  predicate NamesPart(p: Path, n: Name) {
    n == p.name || n == p.name + "-wal" || n == p.name + "-shm" || n == p.name + "-journal"
  }

  lemma PartsByName(live: map<Path, Content>, p: Path, tests: seq<Fate>, n: Name)
    requires |tests| == |SUFFIXES| && forall i :: 0 <= i < |tests| ==> tests[i].Works?
    ensures n in Copies(live, p, tests) <==> NamesPart(p, n) && Path(p.folder, n) in live
    ensures n in Copies(live, p, tests) ==> Copies(live, p, tests)[n] == live[Path(p.folder, n)]
  {
    CopiesAreExact(live, p, tests);
    assert p.name + "" == p.name;
    assert Sidecar(p, 0).name == p.name && Sidecar(p, 1).name == p.name + "-wal";
    assert Sidecar(p, 2).name == p.name + "-shm" && Sidecar(p, 3).name == p.name + "-journal";
    if NamesPart(p, n) && Path(p.folder, n) in live {
      var i :| 0 <= i < |SUFFIXES| && Sidecar(p, i) == Path(p.folder, n);
      assert Copied(live, p, tests, i);
    }
  }

  /** After a clean start and with every test working, what is published are the book, the
      journal, and those of their sidecars that exist, under their own names and as they are. */
  lemma PublishedFiles(live: map<Path, Content>, book: Path, journal: Path,
                       root: map<Name, Entry>, today: Name, left: set<Name>, f: Fate, t: Tests, n: Name)
    requires |t.book| == |SUFFIXES| == |t.journal| && !Clash(live, book, journal)
    requires forall i :: 0 <= i < |SUFFIXES| ==> t.book[i].Works? && t.journal[i].Works?
    requires f.Works? || TmpOf(today) !in root
    ensures var files := Made(live, book, journal, root, today, left, f, t).files;
            var ofBook := NamesPart(book, n) && Path(book.folder, n) in live;
            var ofJournal := NamesPart(journal, n) && Path(journal.folder, n) in live;
            && (n in files <==> ofBook || ofJournal) && !(ofBook && ofJournal)
            && (ofBook ==> files[n] == live[Path(book.folder, n)])
            && (ofJournal ==> files[n] == live[Path(journal.folder, n)])
  {
    PartsByName(live, book, t.book, n);
    PartsByName(live, journal, t.journal, n);
    CopiesAreExact(live, book, t.book);
    CopiesAreExact(live, journal, t.journal);
  }

  /** A part's name comes from no other part of the file. */
  lemma OnlyOwnName(live: map<Path, Content>, p: Path, tests: seq<Fate>, i: nat)
    requires i < |SUFFIXES| && |tests| <= |SUFFIXES|
    ensures Sidecar(p, i).name in Copies(live, p, tests) <==> Copied(live, p, tests, i)
  {
    CopiesAreExact(live, p, tests);
    if Sidecar(p, i).name in Copies(live, p, tests) {
      var j :| 0 <= j < |tests| && Copied(live, p, tests, j) && Sidecar(p, j).name == Sidecar(p, i).name;
      if j < i {
        SidecarNames(p, j, i);
      } else if i < j {
        SidecarNames(p, i, j);
      }
    }
  }

  /** The dated directories. */
  function DatedIn(root: map<Name, Entry>): set<Name> {
    set n | n in root && root[n].Folder? && LooksLikeStamp(n)
  }

  /** Only entries named in `names` may differ. */
  ghost predicate OnlyTouches(before: map<Name, Entry>, after: map<Name, Entry>, names: set<Name>) {
    forall n :: n !in names ==> (n in after <==> n in before) && (n in before ==> after[n] == before[n])
  }

  /** static_cast<size_t>: a negative number of days keeps everything there can be. */
  function AsSize(keepDays: int): nat
    requires -0x8000_0000 <= keepDays < 0x8000_0000
  {
    if keepDays >= 0 then keepDays else keepDays + 0x1_0000_0000_0000_0000
  }

  /** A part of the book and one of the journal would be copied to one file name. */
  predicate Clash(live: map<Path, Content>, book: Path, journal: Path) {
    exists i, j :: 0 <= i < |SUFFIXES| && 0 <= j < |SUFFIXES| && Sidecar(book, i) in live && Sidecar(journal, j) in live
                   && Sidecar(book, i).name == Sidecar(journal, j).name
  }

  /** What an attempt to remove a directory leaves of it: nothing, or the files it did not get to. */
  function Leftover(root: map<Name, Entry>, n: Name, left: set<Name>, f: Fate): map<Name, Content> {
    if f.Works? || n !in root || root[n].Plain? then map[]
    else map x | x in root[n].files && x in left :: root[n].files[x]
  }

  /** Today's directory as it is made: what was found to exist, and what could not be removed
      before. */
  function Made(live: map<Path, Content>, book: Path, journal: Path,
                root: map<Name, Entry>, today: Name, left: set<Name>, f: Fate, t: Tests): Entry
    requires |t.book| == |SUFFIXES| == |t.journal|
  {
    Folder(Leftover(root, TmpOf(today), left, f) + Snapshot(live, book, journal, t))
  }

  /** While at least `keep` names are left behind the first k, those k are not the newest. */
  lemma SplitAt(all: seq<Name>, k: nat, keep: nat)
    requires InOrder(all) && k <= |all| && (k > 0 ==> |all| - k >= keep)
    ensures Elements(all[..k]) <= Elements(all) - Newest(Elements(all), keep)
    ensures |all| - k <= keep ==> Newest(Elements(all), keep) == Elements(all) - Elements(all[..k])
  {
    NewestAreLast(all, keep);
    OrderedIsDistinct(all);
    var first := if |all| <= keep then 0 else |all| - keep;
    assert all[first..] == if |all| <= keep then all else all[|all| - keep..];
    forall n | n in all[..k]
      ensures n !in all[first..]
    {
      assert forall j :: first <= j < |all| ==> all[j] != n;
    }
    if |all| - k <= keep {
      assert all == all[..k] + all[k..];
      assert all[first..] == all[k..];
    }
  }

  /** What is not among the newest of a part is not among the newest of all. */
  lemma NewestOfPart(part: set<Name>, all: set<Name>, keep: nat)
    requires part <= all
    ensures part - Newest(part, keep) <= all - Newest(all, keep)
  {
    forall n | n in part - Newest(part, keep)
      ensures n !in Newest(all, keep)
    {
      assert Later(part, n) <= Later(all, n);
      Sizes(Later(part, n), Later(all, n));
    }
  }

  lemma Sizes(part: set<Name>, all: set<Name>)
    requires part <= all
    ensures |part| <= |all|
  {
    assert all == part + (all - part);
  }

  lemma PrunedOnlyOld(before: map<Name, Entry>, after: map<Name, Entry>, listed: seq<Name>, k: nat, keep: nat)
    requires InOrder(listed) && Elements(listed) <= DatedIn(before)
    requires k <= |listed| && (k > 0 ==> |listed| - k >= keep)
    requires OnlyTouches(before, after, Elements(listed[..k]))
    ensures OnlyTouches(before, after, DatedIn(before) - Newest(DatedIn(before), keep))
  {
    SplitAt(listed, k, keep);
    NewestOfPart(Elements(listed), DatedIn(before), keep);
  }

  lemma PrunedToNewest(before: map<Name, Entry>, after: map<Name, Entry>, all: seq<Name>, k: nat, keep: nat)
    requires InOrder(all) && Elements(all) == DatedIn(before)
    requires k <= |all| && (k > 0 ==> |all| - k >= keep) && |all| - k <= keep
    requires OnlyTouches(before, after, Elements(all[..k]))
    requires forall n :: n in all[..k] ==> n !in after
    ensures DatedIn(after) == Newest(DatedIn(before), keep)
  {
    SplitAt(all, k, keep);
    forall n
      ensures n in DatedIn(after) <==> n in DatedIn(before) && n !in Elements(all[..k])
    {
    }
  }

  /** The stamps there are once today's snapshot is made, and those that pruning keeps. */
  function Dated(root: map<Name, Entry>, today: Name): set<Name> {
    DatedIn(root) + {today}
  }

  function Kept(root: map<Name, Entry>, today: Name, keepDays: int): set<Name>
    requires -0x8000_0000 <= keepDays < 0x8000_0000
  {
    Newest(Dated(root, today), AsSize(keepDays))
  }

  /** What is kept: as many as asked for, or all; today's own snapshot is among them just when
      fewer than that many later-dated directories exist, so with none, unless zero is asked. */
  lemma Retention(root: map<Name, Entry>, today: Name, keepDays: int)
    requires -0x8000_0000 <= keepDays < 0x8000_0000
    ensures |Kept(root, today, keepDays)| ==
            if |Dated(root, today)| <= AsSize(keepDays) then |Dated(root, today)| else AsSize(keepDays)
    ensures keepDays >= 0 ==>
              |Kept(root, today, keepDays)| == if |Dated(root, today)| <= keepDays then |Dated(root, today)| else keepDays
    ensures keepDays < 0 && |Dated(root, today)| < 0x8000_0000_0000_0000 ==> Kept(root, today, keepDays) == Dated(root, today)
    ensures today in Kept(root, today, keepDays) <==> |Later(Dated(root, today), today)| < AsSize(keepDays)
    ensures (forall n :: n in DatedIn(root) ==> !Before(today, n)) ==>
              (today in Kept(root, today, keepDays) <==> keepDays != 0)
  {
    NewestCount(Dated(root, today), AsSize(keepDays));
    BeforeIsTotal(today, today);
    if keepDays < 0 {
      forall n | n in Dated(root, today)
        ensures |Later(Dated(root, today), n)| <= |Dated(root, today)|
      {
        Sizes(Later(Dated(root, today), n), Dated(root, today));
      }
    }
  }

  lemma DatedGains(before: map<Name, Entry>, after: map<Name, Entry>, today: Name)
    requires LooksLikeStamp(today) && today in after && after[today].Folder?
    requires OnlyTouches(before, after, {today, TmpOf(today)})
    ensures DatedIn(after) == Dated(before, today)
  {
    assert |TmpOf(today)| == 14;
    forall n
      ensures n in DatedIn(after) <==> n in Dated(before, today)
    {
    }
  }

  lemma KeptUntouched(before: map<Name, Entry>, after: map<Name, Entry>, keepDays: int)
    requires -0x8000_0000 <= keepDays < 0x8000_0000
    requires OnlyTouches(before, after, DatedIn(before) - Newest(DatedIn(before), AsSize(keepDays)))
    ensures forall n :: n in Newest(DatedIn(before), AsSize(keepDays)) ==>
                          n in DatedIn(after) && after[n] == before[n]
  {
  }

  /** The backup directory, and how each file step in turn will go. */
  class Disk {
    const live: map<Path, Content>
    const fates: nat -> Fate
    var clock: nat
    var root: map<Name, Entry>

    constructor (live: map<Path, Content>, fates: nat -> Fate, root: map<Name, Entry>)
      ensures this.live == live && this.fates == fates && this.root == root && clock == 0
    {
      this.live, this.fates, this.root, clock := live, fates, root, 0;
    }

    ghost predicate Met(f: Fate, from: nat, to: nat) {
      exists k :: from <= k < to && fates(k) == f
    }

    /** The tests are fates that the run has met. */
    ghost predicate Were(tests: seq<Fate>, from: nat, to: nat) {
      forall i :: 0 <= i < |tests| ==> !tests[i].Stops? && Met(tests[i], from, to)
    }

    method Next() returns (f: Fate)
      modifies this`clock
      ensures clock == old(clock) + 1 && f == fates(old(clock))
    {
      f := fates(clock);
      clock := clock + 1;
    }

    /** fs::remove_all: when it does not get through, some of the files are left. */
    method RemoveAll(n: Name, left: set<Name>) returns (f: Fate)
      modifies this
      ensures clock == old(clock) + 1 && f == fates(old(clock))
      ensures OnlyTouches(old(root), root, {n})
      ensures f.Works? ==> n !in root
      ensures n !in old(root) ==> n !in root
      ensures !f.Works? && n in old(root) ==> n in root && (root[n].Folder? <==> old(root)[n].Folder?)
      ensures n in root && root[n].Folder? ==> root[n].files == Leftover(old(root), n, left, f)
    {
      f := Next();
      if f.Works? {
        root := root - {n};
      } else if n in root && root[n].Folder? {
        root := root[n := Folder(Leftover(root, n, left, f))];
      }
    }

    /** fs::copy_file: refuses to overwrite, and may leave a partial copy. */
    method CopyFile(source: Path, dest: Name) returns (f: Fate)
      requires source in live && dest in root && root[dest].Folder?
      modifies this
      ensures dest in root && root[dest].Folder? && OnlyTouches(old(root), root, {dest}) && old(clock) <= clock
      ensures f.Works? ==> source.name !in old(root)[dest].files
                           && root[dest].files == old(root)[dest].files[source.name := live[source]]
      ensures f.Fails? ==> source.name in old(root)[dest].files || Met(Fails, old(clock), clock)
      ensures f.Stops? ==> Met(Stops, old(clock), clock)
    {
      var files := root[dest].files;
      if source.name in files {
        return Fails;
      }
      f := Next();
      if f.Works? {
        root := root[dest := Folder(files[source.name := []])];
        f := Next();
        if f.Works? {
          root := root[dest := Folder(files[source.name := live[source]])];
        }
      }
    }

    /** Each part is looked for, and copied if it is found. */
    method CopyWithSidecars(p: Path, dest: Name) returns (f: Fate, ghost tests: seq<Fate>)
      requires dest in root && root[dest].Folder?
      modifies this
      ensures dest in root && root[dest].Folder? && OnlyTouches(old(root), root, {dest}) && old(clock) <= clock
      ensures |tests| <= |SUFFIXES| && Were(tests, old(clock), clock)
      ensures f.Works? ==> |tests| == |SUFFIXES| && old(root)[dest].files.Keys !! Copies(live, p, tests).Keys
                           && root[dest].files == old(root)[dest].files + Copies(live, p, tests)
      ensures f.Fails? ==> NameTaken(live, p, old(root)[dest].files) || Met(Fails, old(clock), clock)
      ensures f.Stops? ==> Met(Stops, old(clock), clock)
    {
      f, tests := Works, [];
      for i := 0 to |SUFFIXES|
        invariant f.Works? && old(clock) <= clock && |tests| == i && Were(tests, old(clock), clock)
        invariant dest in root && root[dest].Folder? && OnlyTouches(old(root), root, {dest})
        invariant old(root)[dest].files.Keys !! Copies(live, p, tests).Keys
        invariant root[dest].files == old(root)[dest].files + Copies(live, p, tests)
      {
        var source := Sidecar(p, i);
        ghost var present := root[dest].files;
        var found := Next();
        if found.Stops? {
          return Stops, tests;
        }
        ghost var before := tests;
        tests := tests + [found];
        TestsExtend(live, p, before, found);
        if found.Works? && source in live {
          f := CopyFile(source, dest);
          if !f.Works? {
            if source.name in present {
              assert source.name in old(root)[dest].files;
            }
            return;
          }
        }
      }
    }

    /** Removing what an earlier attempt has left, as far as that works, and starting anew. */
    method StartClean(tmp: Name, left: set<Name>) returns (f: Fate)
      modifies this
      ensures old(clock) <= clock && OnlyTouches(old(root), root, {tmp})
      ensures f.Works? ==> tmp in root && root[tmp].Folder? && clock > old(clock) && !fates(old(clock)).Stops?
      ensures f.Works? ==> root[tmp].files == Leftover(old(root), tmp, left, fates(old(clock)))
      ensures f.Fails? ==> Met(Fails, old(clock), clock)
      ensures f.Stops? ==> Met(Stops, old(clock), clock)
    {
      f := RemoveAll(tmp, left);
      if f.Stops? {
        return;
      }
      assert f == fates(old(clock));
      f := Next();
      if f.Works? && tmp in root && root[tmp].Plain? {
        return Fails;
      }
      if f.Works? && tmp !in root {
        root := root[tmp := Folder(map[])];
      }
    }

    method CopyBoth(book: Path, journal: Path, tmp: Name) returns (f: Fate, ghost t: Tests)
      requires tmp in root && root[tmp].Folder?
      modifies this
      ensures old(clock) <= clock && OnlyTouches(old(root), root, {tmp})
      ensures tmp in root && root[tmp].Folder?
      ensures Were(t.book, old(clock), clock) && Were(t.journal, old(clock), clock)
      ensures f.Works? ==> |t.book| == |SUFFIXES| == |t.journal|
                           && root[tmp].files == old(root)[tmp].files + Snapshot(live, book, journal, t)
      ensures f.Fails? && old(root)[tmp].files == map[] ==> Clash(live, book, journal) || Met(Fails, old(clock), clock)
      ensures f.Stops? ==> Met(Stops, old(clock), clock)
    {
      ghost var forBook, forJournal: seq<Fate> := [], [];
      f, forBook := CopyWithSidecars(book, tmp);
      if f.Works? {
        ghost var files := root[tmp].files;
        f, forJournal := CopyWithSidecars(journal, tmp);
        if old(root)[tmp].files == map[] && NameTaken(live, journal, files) {
          assert files == Copies(live, book, forBook);
          TakenIsClash(live, book, journal, forBook);
        }
      }
      t := Tests(forBook, forJournal);
    }

    /** Up to and including the rename: today's directory appears in one step, as Made. One that
        is there already, its existence test having failed, is replaced only if it is empty. */
    method Assemble(book: Path, journal: Path, today: Name, left: set<Name>) returns (f: Fate, ghost t: Tests)
      modifies this
      ensures old(clock) <= clock && OnlyTouches(old(root), root, {today, TmpOf(today)})
      ensures Were(t.book, old(clock), clock) && Were(t.journal, old(clock), clock)
      ensures f.Works? ==> |t.book| == |SUFFIXES| == |t.journal| && today in root && TmpOf(today) !in root
                           && root[today] == Made(live, book, journal, old(root), today, left, fates(old(clock)), t)
                           && (today in old(root) ==> old(root)[today] == Folder(map[]))
      ensures !f.Works? ==> OnlyTouches(old(root), root, {TmpOf(today)})
      ensures f.Fails? ==> Clash(live, book, journal) || Met(Fails, old(clock), clock) || today in old(root)
      ensures f.Stops? ==> Met(Stops, old(clock), clock)
    {
      var tmp := TmpOf(today);
      assert |tmp| != |today|;
      t := Tests([], []);
      f := StartClean(tmp, left);
      if !f.Works? {
        return;
      }
      f, t := CopyBoth(book, journal, tmp);
      if !f.Works? {
        return;
      }
      f := Next();
      if f.Works? {
        if today in root && root[today] != Folder(map[]) {
          return Fails, t;
        }
        root := (root - {tmp})[today := root[tmp]];
      }
    }

    /** The k-th entry's type, asked for by a listing that begins then, and what reading on
        behind it gives. */
    ghost function Typed(from: nat, k: nat): Fate {
      fates(from + 1 + 2 * k)
    }

    ghost function ReadOn(from: nat, k: nat): Fate {
      fates(from + 2 + 2 * k)
    }

    ghost predicate GotTo(from: nat, k: nat) {
      fates(from).Works? && forall j :: 0 <= j < k ==> !Typed(from, j).Stops? && ReadOn(from, j).Works?
    }

    /** A listing of n entries begins, and behind one of them it cannot read on. */
    ghost predicate ListingThrows(from: nat, n: nat) {
      exists k :: 0 <= k < n && GotTo(from, k) && !Typed(from, k).Stops? && ReadOn(from, k).Fails?
    }

    /** The dated directories in order. A directory that cannot be opened, or its first entry
        read, lists as empty; reading on from an entry throws if it fails; an entry whose type
        cannot be told is passed over. */
    method ListStamps() returns (f: Fate, stamps: seq<Name>)
      modifies this`clock
      ensures old(clock) < clock && InOrder(stamps) && Elements(stamps) <= DatedIn(root)
      ensures f.Works? && !Met(Fails, old(clock), clock) ==> Elements(stamps) == DatedIn(root)
      ensures f.Fails? <==> ListingThrows(old(clock), |root|)
      ensures !f.Works? ==> Met(f, old(clock), clock)
    {
      f := Next();
      if f.Works? {
        f, stamps := ReadEntries(old(clock));
      } else {
        return if f.Fails? then Works else Stops, [];
      }
    }

    method ReadEntries(ghost from: nat) returns (f: Fate, stamps: seq<Name>)
      requires clock == from + 1 && fates(from).Works?
      modifies this`clock
      ensures from < clock && InOrder(stamps) && Elements(stamps) <= DatedIn(root)
      ensures f.Works? && !Met(Fails, from, clock) ==> Elements(stamps) == DatedIn(root)
      ensures f.Fails? <==> ListingThrows(from, |root|)
      ensures !f.Works? ==> fates(clock - 1) == f
    {
      f, stamps := Works, [];
      var entries := root.Keys;
      ghost var k: nat := 0;
      while entries != {}
        invariant entries <= root.Keys && k + |entries| == |root|
        invariant clock == from + 1 + 2 * k && f.Works? && GotTo(from, k)
        invariant Collected(from, k, entries, stamps)
      {
        var n :| n in entries;
        f, stamps := TakeEntry(n, entries, stamps, from, k);
        if !f.Works? {
          EndsAt(from, k, |root|);
          return;
        }
        entries := entries - {n};
        k := k + 1;
      }
      NeverThrew(from, k);
      AllTyped(from, k);
    }

    /** stamps are the dated directories among the entries taken, if all types could be told. */
    ghost predicate Collected(from: nat, k: nat, rest: set<Name>, stamps: seq<Name>)
      reads this`root
    {
      && InOrder(stamps)
      && (forall n :: n in stamps ==> n in DatedIn(root) && n !in rest)
      && (AllTold(from, k) ==> forall n :: n in DatedIn(root) && n !in rest ==> n in stamps)
    }

    ghost predicate AllTold(from: nat, k: nat) {
      forall j :: 0 <= j < k ==> Typed(from, j).Works?
    }

    /** One round of the listing: the entry is looked at, and the next one read. */
    method TakeEntry(n: Name, ghost rest: set<Name>, stamps: seq<Name>, ghost from: nat, ghost k: nat)
      returns (f: Fate, stamps': seq<Name>)
      requires n in root && n in rest && clock == from + 1 + 2 * k
      requires GotTo(from, k) && Collected(from, k, rest, stamps)
      modifies this`clock
      ensures InOrder(stamps') && Elements(stamps') <= DatedIn(root)
      ensures f == if Typed(from, k).Stops? then Stops else ReadOn(from, k)
      ensures f.Works? ==> Collected(from, k + 1, rest - {n}, stamps')
      ensures f.Works? ==> GotTo(from, k + 1) && clock == from + 1 + 2 * (k + 1)
      ensures from < clock && fates(clock - 1) == f
    {
      stamps' := stamps;
      var typed := Next();
      if typed.Stops? {
        return Stops, stamps;
      }
      if typed.Works? && root[n].Folder? && LooksLikeStamp(n) {
        InsertKeepsOrder(stamps, n);
        stamps' := Insert(stamps, n);
      }
      f := Next();
      assert typed == Typed(from, k);
      assert AllTold(from, k + 1) ==> AllTold(from, k) && Typed(from, k).Works?;
    }

    lemma EndsAt(from: nat, k: nat, n: nat)
      requires GotTo(from, k) && k < n && (Typed(from, k).Stops? || !ReadOn(from, k).Works?)
      ensures ListingThrows(from, n) <==> !Typed(from, k).Stops? && ReadOn(from, k).Fails?
    {
    }

    lemma NeverThrew(from: nat, n: nat)
      requires GotTo(from, n)
      ensures !ListingThrows(from, n)
    {
    }

    lemma AllTyped(from: nat, k: nat)
      requires GotTo(from, k)
      ensures !Met(Fails, from, from + 1 + 2 * k) ==> AllTold(from, k)
    {
      if j :| 0 <= j < k && !Typed(from, j).Works? {
        assert fates(from + 1 + 2 * j) == Fails;
      }
    }

    /** Removing the oldest of those listed: none of the newest is touched, wherever it stops. */
    method RemoveOldest(listed: seq<Name>, keep: nat, left: set<Name>) returns (f: Fate)
      requires InOrder(listed) && Elements(listed) <= DatedIn(root)
      modifies this
      ensures old(clock) <= clock && !f.Fails?
      ensures OnlyTouches(old(root), root, DatedIn(old(root)) - Newest(DatedIn(old(root)), keep))
      ensures Elements(listed) == DatedIn(old(root)) && f.Works? && !Met(Fails, old(clock), clock) ==>
                DatedIn(root) == Newest(DatedIn(old(root)), keep)
      ensures f.Stops? ==> Met(Stops, old(clock), clock)
    {
      var stamps := listed;
      ghost var gone := 0;
      while |stamps| > keep
        invariant 0 <= gone <= |listed| && stamps == listed[gone..]
        invariant gone > 0 ==> |stamps| >= keep
        invariant old(clock) <= clock
        invariant OnlyTouches(old(root), root, Elements(listed[..gone]))
        invariant !Met(Fails, old(clock), clock) ==> forall n :: n in listed[..gone] ==> n !in root
      {
        ghost var was := clock;
        var g := RemoveAll(stamps[0], left);
        assert fates(was) == g;
        assert listed[..gone + 1] == listed[..gone] + [stamps[0]];
        if g.Stops? {
          PrunedOnlyOld(old(root), root, listed, gone + 1, keep);
          return Stops;
        }
        stamps := stamps[1..];
        gone := gone + 1;
      }
      PrunedOnlyOld(old(root), root, listed, gone, keep);
      if Elements(listed) == DatedIn(old(root)) && !Met(Fails, old(clock), clock) {
        PrunedToNewest(old(root), root, listed, gone, keep);
      }
      return Works;
    }

    /** Pruning: nothing is removed when the listing throws. */
    method Prune(keepDays: int, left: set<Name>) returns (f: Fate)
      requires -0x8000_0000 <= keepDays < 0x8000_0000
      modifies this
      ensures old(clock) <= clock
      ensures f.Fails? <==> ListingThrows(old(clock), |old(root)|)
      ensures f.Fails? ==> root == old(root) && Met(Fails, old(clock), clock)
      ensures OnlyTouches(old(root), root, DatedIn(old(root)) - Newest(DatedIn(old(root)), AsSize(keepDays)))
      ensures f.Works? && !Met(Fails, old(clock), clock) ==> DatedIn(root) == Newest(DatedIn(old(root)), AsSize(keepDays))
      ensures f.Stops? ==> Met(Stops, old(clock), clock)
    {
      var stamps;
      f, stamps := ListStamps();
      if f.Works? {
        f := RemoveOldest(stamps, AsSize(keepDays), left);
      }
    }

    /** The whole of it. Whatever the fates, a snapshot of today that is there is not touched
        unless it is empty, today's directory is else absent, as Made, or itself pruned, what
        lies outside the named entries is untouched, and a run that gets through keeps exactly
        the newest. */
    method SnapshotBeforeOpen(book: Path, journal: Path, today: Name, keepDays: int, left: set<Name>)
      returns (r: Ending, ghost t: Tests)
      requires LooksLikeStamp(today) && -0x8000_0000 <= keepDays < 0x8000_0000
      modifies this
      ensures old(clock) <= clock && Were(t.book, old(clock), clock) && Were(t.journal, old(clock), clock)
      ensures r.Skipped? <==> today in old(root) && fates(old(clock)).Works?
      ensures r.Skipped? ==> root == old(root)
      ensures today in old(root) && old(root)[today] != Folder(map[]) ==> today in root && root[today] == old(root)[today]
      ensures OnlyTouches(old(root), root, {today, TmpOf(today)} + (Dated(old(root), today) - Kept(old(root), today, keepDays)))
      ensures r.Completed? || r.Escaped? ==>
                && |t.book| == |SUFFIXES| == |t.journal|
                && Kept(old(root), today, keepDays) <= DatedIn(root)
                && (today in Kept(old(root), today, keepDays) ==>
                      root[today] == Made(live, book, journal, old(root), today, left, fates(old(clock) + 1), t))
      ensures r.Escaped? ==> OnlyTouches(old(root), root, {today, TmpOf(today)})
                             && exists from :: old(clock) < from < clock && ListingThrows(from, |root|)
      ensures r.Completed? && !Met(Fails, old(clock), clock) ==> DatedIn(root) == Kept(old(root), today, keepDays)
      ensures r.Failed? ==> OnlyTouches(old(root), root, {TmpOf(today)})
                            && (Clash(live, book, journal) || Met(Fails, old(clock), clock))
      ensures r.Stopped? ==>
                && Met(Stops, old(clock), clock)
                && (today !in old(root) && today in root && today in Kept(old(root), today, keepDays) ==>
                      && |t.book| == |SUFFIXES| == |t.journal|
                      && root[today] == Made(live, book, journal, old(root), today, left, fates(old(clock) + 1), t))
    {
      t := Tests([], []);
      var found := Next();
      assert found == fates(old(clock));
      if found.Stops? {
        return Stopped, t;
      }
      if found.Works? && today in root {
        return Skipped, t;
      }
      var f;
      f, t := Assemble(book, journal, today, left);
      if f.Stops? {
        return Stopped, t;
      }
      if f.Fails? {
        return Failed, t;
      }
      DatedGains(old(root), root, today);
      ghost var made := root;
      f := Prune(keepDays, left);
      KeptUntouched(made, root, keepDays);
      return match f case Works => Completed case Fails => Escaped case Stops => Stopped, t;
    }
  }

  lemma TestsExtend(live: map<Path, Content>, p: Path, tests: seq<Fate>, found: Fate)
    requires |tests| < |SUFFIXES|
    ensures var more, part := tests + [found], Sidecar(p, |tests|);
            Copies(live, p, more) ==
            if found.Works? && part in live then Copies(live, p, tests)[part.name := live[part]] else Copies(live, p, tests)
    ensures Sidecar(p, |tests|).name !in Copies(live, p, tests)
  {
    assert (tests + [found])[..|tests|] == tests;
    OnlyOwnName(live, p, tests, |tests|);
  }

  /** A live part of the file already has a file of its name. */
  predicate NameTaken(live: map<Path, Content>, p: Path, files: map<Name, Content>) {
    exists i :: 0 <= i < |SUFFIXES| && Sidecar(p, i) in live && Sidecar(p, i).name in files
  }

  lemma TakenIsClash(live: map<Path, Content>, book: Path, journal: Path, tests: seq<Fate>)
    requires |tests| <= |SUFFIXES| && NameTaken(live, journal, Copies(live, book, tests))
    ensures Clash(live, book, journal)
  {
    CopiesAreExact(live, book, tests);
    var j :| 0 <= j < |SUFFIXES| && Sidecar(journal, j) in live && Sidecar(journal, j).name in Copies(live, book, tests);
    var i :| 0 <= i < |tests| && Copied(live, book, tests, i) && Sidecar(book, i).name == Sidecar(journal, j).name;
  }
}
