/**
 Log rotation of log/newlog/output.go over a map of files: rollRunOnce renames
 every file with the log's name as prefix to the next number, highest first.
 File operations succeed; rename replaces an existing target.
 */
module LogRotation {
  import opened LogNames
  import opened Sets

  type Content = string
  type Files = map<string, Content>

  datatype LogInfo = LogInfo(sequence: int, name: string)

  /** Dropped by rollRunOnce instead of renamed. */
  predicate Dropped(f: LogInfo, max: int) { f.sequence + 1 >= max }

  function Target(prefix: string, f: LogInfo): string { NextFileName(prefix, f.sequence) }

  /** One round of the loop of rollRunOnce. */
  function Handle(d: Files, prefix: string, f: LogInfo, max: int): Files
    requires f.name in d
  {
    if Dropped(f, max) then d - {f.name} else (d - {f.name})[Target(prefix, f) := d[f.name]]
  }

  /** Files that are there, each listed once, with the number its name shows. */
  ghost predicate Present(d: Files, prefix: string, fs: seq<LogInfo>) {
    && (forall i | 0 <= i < |fs| :: fs[i].name in d && prefix <= fs[i].name && fs[i].sequence == Sequence(prefix, fs[i].name))
    && (forall i, j | 0 <= i < j < |fs| :: fs[i].name != fs[j].name)
  }

  /** The order of oldLogFiles: highest number first. */
  ghost predicate Descending(fs: seq<LogInfo>) { forall i, j | 0 <= i < j < |fs| :: fs[i].sequence >= fs[j].sequence }

  ghost predicate Pending(d: Files, prefix: string, fs: seq<LogInfo>) { Present(d, prefix, fs) && Descending(fs) }

  /** All the files with the log's prefix, in some order. */
  ghost predicate Lists(d: Files, prefix: string, fs: seq<LogInfo>) {
    Present(d, prefix, fs) && forall n | n in d && prefix <= n :: n in Names(fs)
  }

  /** What oldLogFiles returns. */
  ghost predicate Listing(d: Files, prefix: string, fs: seq<LogInfo>) { Lists(d, prefix, fs) && Descending(fs) }

  ghost function Names(fs: seq<LogInfo>): set<string> { set i | 0 <= i < |fs| :: fs[i].name }

  /** No two of the files to be renamed show the same number. */
  ghost predicate Distinct(fs: seq<LogInfo>, max: int) {
    forall i, j | 0 <= i < j < |fs| && !Dropped(fs[i], max) && !Dropped(fs[j], max) :: fs[i].sequence != fs[j].sequence
  }

  /** Handling the first file leaves the others pending. */
  lemma HandleKeepsPending(d: Files, prefix: string, fs: seq<LogInfo>, max: int)
    requires Pending(d, prefix, fs) && fs != []
    ensures Pending(Handle(d, prefix, fs[0], max), prefix, fs[1..])
    ensures forall j | 1 <= j < |fs| :: Handle(d, prefix, fs[0], max)[fs[j].name] == d[fs[j].name]
    ensures Target(prefix, fs[0]) !in Names(fs)
  {
    hide Sequence, Numbered;
    SequenceOfNumbered(prefix, fs[0].sequence + 1);
  }

  lemma HandleKeepsPresent(d: Files, prefix: string, fs: seq<LogInfo>, max: int)
    requires Present(d, prefix, fs) && fs != []
    ensures Present(Handle(d, prefix, fs[0], max), prefix, fs[1..])
  {
    hide Sequence, Dropped, Target;
  }

  /** The loop of rollRunOnce, over the files in any order. */
  function HandleAll(d: Files, prefix: string, fs: seq<LogInfo>, max: int): Files
    requires Present(d, prefix, fs)
    decreases |fs|
  {
    if fs == [] then d
    else HandleKeepsPresent(d, prefix, fs, max); HandleAll(Handle(d, prefix, fs[0], max), prefix, fs[1..], max)
  }

  /** No rename of the loop replaces a file that is there. */
  ghost predicate NoOverwrite(d: Files, prefix: string, fs: seq<LogInfo>, max: int)
    requires Present(d, prefix, fs)
    decreases |fs|
  {
    fs == [] ||
    (HandleKeepsPresent(d, prefix, fs, max);
     (!Dropped(fs[0], max) ==> Target(prefix, fs[0]) !in d)
     && NoOverwrite(Handle(d, prefix, fs[0], max), prefix, fs[1..], max))
  }

  // ------------------------------------------------- when nothing is lost

  /** No file outside the list stands where a file of the list will go. */
  ghost predicate Settled(d: Files, prefix: string, fs: seq<LogInfo>, max: int) {
    forall n, j | n in d && n !in Names(fs) && 0 <= j < |fs| && !Dropped(fs[j], max) :: n != Target(prefix, fs[j])
  }

  ghost predicate IsTarget(prefix: string, fs: seq<LogInfo>, max: int, n: string) {
    exists j :: 0 <= j < |fs| && !Dropped(fs[j], max) && n == Target(prefix, fs[j])
  }

  lemma TargetsDiffer(prefix: string, f: LogInfo, g: LogInfo)
    ensures Target(prefix, f) == Target(prefix, g) <==> f.sequence == g.sequence
  {
    hide Sequence, Numbered;
    SequenceOfNumbered(prefix, f.sequence + 1);
    SequenceOfNumbered(prefix, g.sequence + 1);
  }

  lemma NamesRest(fs: seq<LogInfo>)
    requires fs != []
    ensures Names(fs) == {fs[0].name} + Names(fs[1..])
  {
    forall n | n in Names(fs) ensures n in {fs[0].name} + Names(fs[1..]) {
      var i :| 0 <= i < |fs| && fs[i].name == n;
      assert i > 0 ==> fs[1..][i - 1].name == n;
    }
    forall n | n in Names(fs[1..]) ensures n in Names(fs) {
      var i :| 0 <= i < |fs[1..]| && fs[1..][i].name == n;
      assert fs[i + 1].name == n;
    }
  }

  lemma HandleKeepsSettled(d: Files, prefix: string, fs: seq<LogInfo>, max: int)
    requires Pending(d, prefix, fs) && fs != [] && Distinct(fs, max) && Settled(d, prefix, fs, max)
    ensures Settled(Handle(d, prefix, fs[0], max), prefix, fs[1..], max) && Distinct(fs[1..], max)
    ensures !Dropped(fs[0], max) ==> Target(prefix, fs[0]) !in d
  {
    HandleKeepsPending(d, prefix, fs, max);
    AnyOrderKeepsSettled(d, prefix, fs, max);
  }

  /** Every kept file is at its target, the dropped ones are gone and the rest is as it was. */
  ghost predicate Moved(d: Files, d': Files, prefix: string, fs: seq<LogInfo>, max: int) {
    && (forall i | 0 <= i < |fs| :: fs[i].name in d)
    && (forall j | 0 <= j < |fs| && !Dropped(fs[j], max) ::
          Target(prefix, fs[j]) in d' && d'[Target(prefix, fs[j])] == d[fs[j].name])
    && (forall n | n in d && n !in Names(fs) :: n in d' && d'[n] == d[n])
    && (forall n | n in d' :: (n in d && n !in Names(fs)) || IsTarget(prefix, fs, max, n))
  }

  lemma MovedStep(d: Files, d': Files, prefix: string, fs: seq<LogInfo>, max: int)
    requires Pending(d, prefix, fs) && fs != [] && Distinct(fs, max) && Settled(d, prefix, fs, max)
    requires Moved(Handle(d, prefix, fs[0], max), d', prefix, fs[1..], max)
    ensures Moved(d, d', prefix, fs, max)
  {
    hide Names, Target, Settled, Distinct, Pending, Dropped;
    HandleKeepsPending(d, prefix, fs, max);
    HandleKeepsSettled(d, prefix, fs, max);
    NamesRest(fs);
    PendingNames(d, prefix, fs);
    var d1, rest, f, t := Handle(d, prefix, fs[0], max), fs[1..], fs[0], Target(prefix, fs[0]);
    assert forall n :: n in d1 <==> (n in d && n != f.name) || (!Dropped(f, max) && n == t);
    assert forall n | n in d && n != f.name && (n != t || Dropped(f, max)) :: d1[n] == d[n];
    assert !Dropped(f, max) ==> d1[t] == d[f.name];
    hide Handle;
    forall j | 0 <= j < |fs| && !Dropped(fs[j], max)
      ensures Target(prefix, fs[j]) in d' && d'[Target(prefix, fs[j])] == d[fs[j].name]
    {
      if j > 0 {
        assert fs[j] == rest[j - 1];
      }
    }
    forall n | n in d' ensures (n in d && n !in Names(fs)) || IsTarget(prefix, fs, max, n) {
      if IsTarget(prefix, rest, max, n) {
        var j :| 0 <= j < |rest| && !Dropped(rest[j], max) && n == Target(prefix, rest[j]);
        assert rest[j] == fs[j + 1];
      } else if n == t && !Dropped(f, max) {
        assert fs[0] == f;
      }
    }
  }

  lemma PendingNames(d: Files, prefix: string, fs: seq<LogInfo>)
    requires Pending(d, prefix, fs)
    ensures forall i | 0 <= i < |fs| :: fs[i].name in d && fs[i].name in Names(fs)
  {
  }

  /** What the loop leaves when the numbers are distinct. */
  lemma {:induction false} HandleAllMoves(d: Files, prefix: string, fs: seq<LogInfo>, max: int)
    requires Pending(d, prefix, fs) && Distinct(fs, max) && Settled(d, prefix, fs, max)
    ensures NoOverwrite(d, prefix, fs, max)
    ensures Moved(d, HandleAll(d, prefix, fs, max), prefix, fs, max)
    decreases |fs|
  {
    if fs != [] {
      hide Moved, Settled, Distinct, Pending, Handle;
      HandleKeepsPending(d, prefix, fs, max);
      HandleKeepsSettled(d, prefix, fs, max);
      HandleAllMoves(Handle(d, prefix, fs[0], max), prefix, fs[1..], max);
      MovedStep(d, HandleAll(d, prefix, fs, max), prefix, fs, max);
    }
  }

  lemma ListingIsSettled(d: Files, prefix: string, fs: seq<LogInfo>, max: int)
    requires Listing(d, prefix, fs)
    ensures Settled(d, prefix, fs, max)
  {
  }

  /** No rename of rollRunOnce overwrites a live file if and only if the files to be renamed show distinct numbers. */
  lemma NoOverwriteIffDistinct(d: Files, prefix: string, fs: seq<LogInfo>, max: int)
    requires Listing(d, prefix, fs)
    ensures NoOverwrite(d, prefix, fs, max) <==> Distinct(fs, max)
  {
    if Distinct(fs, max) {
      ListingIsSettled(d, prefix, fs, max);
      HandleAllMoves(d, prefix, fs, max);
    } else {
      EqualNumbersOverwrite(d, prefix, fs, max);
    }
  }

  lemma {:induction false} EqualNumbersOverwrite(d: Files, prefix: string, fs: seq<LogInfo>, max: int)
    requires Pending(d, prefix, fs) && !Distinct(fs, max)
    ensures !NoOverwrite(d, prefix, fs, max)
    decreases |fs|
  {
    HandleKeepsPending(d, prefix, fs, max);
    var rest := fs[1..];
    if Distinct(rest, max) {
      var i, j :| 0 <= i < j < |fs| && !Dropped(fs[i], max) && !Dropped(fs[j], max) && fs[i].sequence == fs[j].sequence;
      assert i == 0;
      assert fs[1].sequence == fs[0].sequence;
      TargetsDiffer(prefix, fs[0], fs[1]);
      assert rest[0] == fs[1];
    } else {
      EqualNumbersOverwrite(Handle(d, prefix, fs[0], max), prefix, rest, max);
    }
  }

  // ---------------------------------------------------- whole rotations

  /** rollRunOnce: rename and drop, then open the log again; nothing to do when no file matches. */
  function Roll(d: Files, prefix: string, fs: seq<LogInfo>, max: int): Files
    requires Pending(d, prefix, fs)
  {
    if fs == [] then d
    else
      var d' := HandleAll(d, prefix, fs, max);
      if prefix in d' then d' else d'[prefix := ""]
  }

  function FileName(prefix: string, k: nat): (n: string)
    ensures prefix <= n
  {
    if k == 0 then prefix else Numbered(prefix, k)
  }

  /** Every file with the log's name as prefix is Name or Name.k with k >= 1. */
  ghost predicate Canonical(d: Files, prefix: string) {
    forall n | n in d && prefix <= n :: Sequence(prefix, n) >= 0 && n == FileName(prefix, Sequence(prefix, n))
  }

  lemma SequenceOfFileName(prefix: string, k: nat)
    ensures Sequence(prefix, FileName(prefix, k)) == k
  {
    SequenceOfNumbered(prefix, k);
  }

  /** Name, or Name with a dot and digits of which the first is not '0'. */
  lemma CanonicalIff(d: Files, prefix: string)
    ensures Canonical(d, prefix) <==> forall n | n in d && prefix <= n :: n == prefix || Rotated(prefix, n)
  {
    hide Sequence, Numbered, Rotated;
    forall n | n in d && prefix <= n
      ensures Sequence(prefix, n) >= 0 && n == FileName(prefix, Sequence(prefix, n)) <==> n == prefix || Rotated(prefix, n)
    {
      RotatedIff(prefix, n);
      SequenceOfFileName(prefix, 0);
    }
  }

  /** Rotation's file k is Name for k = 0, and else Name, a dot and the decimal digits of k. */
  lemma FileNameIff(prefix: string, n: string, k: nat)
    ensures n == FileName(prefix, k) <==> if k == 0 then n == prefix else NameOf(prefix, n, k)
  {
    if k > 0 {
      NameOfIff(prefix, n, k);
    }
    hide NameOf, Numbered;
  }

  lemma CanonicalIsDistinct(d: Files, prefix: string, fs: seq<LogInfo>, max: int)
    requires Canonical(d, prefix) && Listing(d, prefix, fs)
    ensures Distinct(fs, max)
  {
    hide Sequence, FileName;
  }

  /** File k + 1 is now what file k was, if that was there and k + 1 is below the maximum; else there is none. */
  ghost predicate ShiftedAt(d: Files, d': Files, prefix: string, max: int, k: nat) {
    var was, will := FileName(prefix, k), FileName(prefix, k + 1);
    (will in d' <==> k + 1 < max && was in d) && (will in d' ==> d'[will] == d[was])
  }

  /** What a rotation does: every file moves up one number, Name is new, other files stay. */
  ghost predicate Shifted(d: Files, d': Files, prefix: string, max: int) {
    && Canonical(d', prefix)
    && prefix in d' && d'[prefix] == ""
    && (forall k: nat :: ShiftedAt(d, d', prefix, max, k))
    && (forall n | !(prefix <= n) :: (n in d' <==> n in d) && (n in d ==> d'[n] == d[n]))
  }

  lemma RollShifts(d: Files, prefix: string, fs: seq<LogInfo>, max: int)
    requires Canonical(d, prefix) && Listing(d, prefix, fs)
    ensures NoOverwrite(d, prefix, fs, max)
    ensures if Matching(d, prefix) == {} then Roll(d, prefix, fs, max) == d else Shifted(d, Roll(d, prefix, fs, max), prefix, max)
  {
    CanonicalIsDistinct(d, prefix, fs, max);
    ListingIsSettled(d, prefix, fs, max);
    HandleAllMoves(d, prefix, fs, max);
    ListedIffMatching(d, prefix, fs);
    if fs != [] {
      MovedIsShifted(d, HandleAll(d, prefix, fs, max), prefix, fs, max);
      NameIsFree(d, HandleAll(d, prefix, fs, max), prefix, fs, max);
    }
  }

  /** A file that the loop leaves under the log's name is the target of exactly one file of the list. */
  lemma MovedFrom(d: Files, d1: Files, prefix: string, fs: seq<LogInfo>, max: int, n: string) returns (j: int)
    requires Listing(d, prefix, fs) && Moved(d, d1, prefix, fs, max) && n in d1 && prefix <= n
    ensures 0 <= j < |fs| && !Dropped(fs[j], max) && n == Numbered(prefix, fs[j].sequence + 1)
    ensures Sequence(prefix, n) == fs[j].sequence + 1 && fs[j].name in d && fs[j].sequence == Sequence(prefix, fs[j].name)
    ensures prefix <= fs[j].name
  {
    j := TargetOf(d, d1, prefix, fs, max, n);
    hide Sequence, Moved, Numbered;
    ListedAt(d, prefix, fs, j);
    SequenceOfNumbered(prefix, fs[j].sequence + 1);
    hide Listing;
  }

  lemma TargetOf(d: Files, d1: Files, prefix: string, fs: seq<LogInfo>, max: int, n: string) returns (j: int)
    requires Listing(d, prefix, fs) && Moved(d, d1, prefix, fs, max) && n in d1 && prefix <= n
    ensures 0 <= j < |fs| && !Dropped(fs[j], max) && n == Target(prefix, fs[j])
  {
    hide Present, Descending, Dropped, Target, Names;
    j :| 0 <= j < |fs| && !Dropped(fs[j], max) && n == Target(prefix, fs[j]);
  }

  lemma ListedAt(d: Files, prefix: string, fs: seq<LogInfo>, j: int)
    requires Present(d, prefix, fs) && 0 <= j < |fs|
    ensures fs[j].name in d && prefix <= fs[j].name && fs[j].sequence == Sequence(prefix, fs[j].name)
  {
    hide Sequence;
  }

  lemma CanonicalAfter(d: Files, d1: Files, prefix: string, fs: seq<LogInfo>, max: int)
    requires Canonical(d, prefix) && Listing(d, prefix, fs) && Moved(d, d1, prefix, fs, max)
    ensures Canonical(d1[prefix := ""], prefix)
  {
    hide Sequence, Moved, Listing, Numbered;
    forall n | n in d1[prefix := ""] && prefix <= n
      ensures Sequence(prefix, n) >= 0 && n == FileName(prefix, Sequence(prefix, n))
    {
      if n == prefix {
        SequenceOfFileName(prefix, 0);
      } else {
        var j := MovedFrom(d, d1, prefix, fs, max, n);
      }
    }
  }

  /** Where the loop leaves a file under number k + 1, file k was before. */
  lemma CameFrom(d: Files, d1: Files, prefix: string, fs: seq<LogInfo>, max: int, k: nat)
    requires Canonical(d, prefix) && Listing(d, prefix, fs) && Moved(d, d1, prefix, fs, max)
    requires Numbered(prefix, k + 1) in d1
    ensures k + 1 < max && FileName(prefix, k) in d && d1[Numbered(prefix, k + 1)] == d[FileName(prefix, k)]
  {
    hide Sequence, Numbered, Listing, Names, IsTarget, FileName;
    var n := Numbered(prefix, k + 1);
    SequenceOfNumbered(prefix, k + 1);
    var j := MovedFrom(d, d1, prefix, fs, max, n);
    assert n == Target(prefix, fs[j]);
  }

  /** File k, if it is not dropped, goes to number k + 1. */
  lemma GoesTo(d: Files, d1: Files, prefix: string, fs: seq<LogInfo>, max: int, k: nat)
    requires Listing(d, prefix, fs) && Moved(d, d1, prefix, fs, max) && k + 1 < max && FileName(prefix, k) in d
    ensures Numbered(prefix, k + 1) in d1
  {
    hide Sequence, Numbered, Listing, Names, IsTarget;
    SequenceOfFileName(prefix, k);
    var j := ListedFrom(d, prefix, fs, FileName(prefix, k));
    assert Target(prefix, fs[j]) == Numbered(prefix, k + 1);
  }

  lemma MovedShiftsAt(d: Files, d1: Files, prefix: string, fs: seq<LogInfo>, max: int, k: nat)
    requires Canonical(d, prefix) && Listing(d, prefix, fs) && Moved(d, d1, prefix, fs, max)
    ensures ShiftedAt(d, d1[prefix := ""], prefix, max, k)
  {
    hide Sequence, Numbered, Canonical, Listing, Moved;
    if Numbered(prefix, k + 1) in d1 {
      CameFrom(d, d1, prefix, fs, max, k);
    }
    if k + 1 < max && FileName(prefix, k) in d {
      GoesTo(d, d1, prefix, fs, max, k);
    }
  }

  lemma ListedFrom(d: Files, prefix: string, fs: seq<LogInfo>, n: string) returns (j: int)
    requires Listing(d, prefix, fs) && n in d && prefix <= n
    ensures 0 <= j < |fs| && fs[j].name == n && fs[j].sequence == Sequence(prefix, n)
  {
    hide Sequence, Descending;
    assert n in Names(fs);
    j :| 0 <= j < |fs| && fs[j].name == n;
  }

  lemma OthersStay(d: Files, d1: Files, prefix: string, fs: seq<LogInfo>, max: int, n: string)
    requires Present(d, prefix, fs) && Moved(d, d1, prefix, fs, max) && !(prefix <= n)
    ensures (n in d1 <==> n in d) && (n in d ==> d1[n] == d[n])
  {
    hide Sequence;
    assert n !in Names(fs);
    assert !IsTarget(prefix, fs, max, n);
  }

  lemma MovedIsShifted(d: Files, d1: Files, prefix: string, fs: seq<LogInfo>, max: int)
    requires Canonical(d, prefix) && Listing(d, prefix, fs) && Moved(d, d1, prefix, fs, max)
    ensures Shifted(d, d1[prefix := ""], prefix, max)
  {
    hide Sequence, Numbered, Moved, Present, Canonical, ShiftedAt;
    var d' := d1[prefix := ""];
    CanonicalAfter(d, d1, prefix, fs, max);
    forall n | !(prefix <= n) ensures (n in d' <==> n in d) && (n in d ==> d'[n] == d[n]) {
      OthersStay(d, d1, prefix, fs, max, n);
    }
    forall k: nat ensures ShiftedAt(d, d', prefix, max, k) {
      MovedShiftsAt(d, d1, prefix, fs, max, k);
    }
  }

  ghost function Matching(d: Files, prefix: string): set<string> { set n | n in d && prefix <= n }

  lemma ListedIffMatching(d: Files, prefix: string, fs: seq<LogInfo>)
    requires Listing(d, prefix, fs)
    ensures fs == [] <==> Matching(d, prefix) == {}
  {
    hide Sequence, Descending;
    if fs != [] {
      assert fs[0].name in Matching(d, prefix);
    }
  }

  lemma NameIsFree(d: Files, d1: Files, prefix: string, fs: seq<LogInfo>, max: int)
    requires Listing(d, prefix, fs) && Moved(d, d1, prefix, fs, max)
    ensures prefix !in d1
  {
    if prefix in d1 {
      var j := TargetOf(d, d1, prefix, fs, max, prefix);
    }
  }

  // ------------------------------------------------------ many rotations

  /** With c in Name, d rotates into d'. */
  ghost predicate Rotates(d: Files, c: Content, fs: seq<LogInfo>, d': Files, prefix: string, max: int) {
    Listing(d[prefix := c], prefix, fs) && d' == Roll(d[prefix := c], prefix, fs, max)
  }

  /** ds[i] with cs[i] logged into Name rotates into ds[i + 1]. */
  ghost predicate History(ds: seq<Files>, cs: seq<Content>, fss: seq<seq<LogInfo>>, prefix: string, max: int) {
    && |ds| == |cs| + 1 == |fss| + 1
    && Canonical(ds[0], prefix)
    && forall i | 0 <= i < |cs| :: Rotates(ds[i], cs[i], fss[i], ds[i + 1], prefix, max)
  }

  /** After n rotations file k holds what Name held k rotations ago, or what file k - n held at the start. */
  ghost predicate HoldsAt(ds: seq<Files>, cs: seq<Content>, prefix: string, max: int, n: nat, k: nat)
    requires n < |ds| && n <= |cs| && 1 <= k
  {
    var f := FileName(prefix, k);
    if n == 0 then true
    else if k <= n then (f in ds[n] <==> k < max) && (f in ds[n] ==> ds[n][f] == cs[n - k])
    else
      var g := FileName(prefix, k - n);
      (f in ds[n] <==> k < max && g in ds[0]) && (f in ds[n] ==> ds[n][f] == ds[0][g])
  }

  ghost predicate RotatesCleanly(d: Files, fs: seq<LogInfo>, prefix: string, max: int) {
    Listing(d, prefix, fs) && NoOverwrite(d, prefix, fs, max)
  }

  lemma RotatesShifts(d: Files, c: Content, fs: seq<LogInfo>, d': Files, prefix: string, max: int)
    requires Canonical(d, prefix) && Rotates(d, c, fs, d', prefix, max)
    ensures Shifted(d[prefix := c], d', prefix, max) && Canonical(d', prefix)
    ensures RotatesCleanly(d[prefix := c], fs, prefix, max)
  {
    assert Canonical(d[prefix := c], prefix) by {
      SequenceOfFileName(prefix, 0);
      hide Sequence, FileName;
    }
    assert prefix in Matching(d[prefix := c], prefix);
    RollShifts(d[prefix := c], prefix, fs, max);
  }

  lemma {:induction false} HistoryShifts(ds: seq<Files>, cs: seq<Content>, fss: seq<seq<LogInfo>>, prefix: string, max: int, n: nat)
    requires History(ds, cs, fss, prefix, max) && n < |ds|
    ensures Canonical(ds[n], prefix)
    ensures n > 0 ==> Shifted(ds[n - 1][prefix := cs[n - 1]], ds[n], prefix, max)
    ensures n > 0 ==> RotatesCleanly(ds[n - 1][prefix := cs[n - 1]], fss[n - 1], prefix, max)
  {
    hide Canonical, Shifted, Rotates, RotatesCleanly;
    if n > 0 {
      HistoryShifts(ds, cs, fss, prefix, max, n - 1);
      RotatesShifts(ds[n - 1], cs[n - 1], fss[n - 1], ds[n], prefix, max);
    }
  }

  /** None of the n-th rotation's renames overwrites a live file, for any n. */
  lemma NoRotationOverwrites(ds: seq<Files>, cs: seq<Content>, fss: seq<seq<LogInfo>>, prefix: string, max: int, n: nat)
    requires History(ds, cs, fss, prefix, max) && n < |cs|
    ensures RotatesCleanly(ds[n][prefix := cs[n]], fss[n], prefix, max)
  {
    hide RotatesCleanly, Rotates;
    HistoryShifts(ds, cs, fss, prefix, max, n + 1);
  }

  /** Over any number of rotations, with anything logged between them. */
  lemma {:induction false} RotationsKeepHistory(ds: seq<Files>, cs: seq<Content>, fss: seq<seq<LogInfo>>, prefix: string, max: int, n: nat, k: nat)
    requires History(ds, cs, fss, prefix, max) && n < |ds| && 1 <= k
    ensures HoldsAt(ds, cs, prefix, max, n, k)
    decreases n
  {
    hide Rotates, Canonical, Shifted, ShiftedAt, FileName;
    if n > 0 {
      HistoryShifts(ds, cs, fss, prefix, max, n);
      OneBack(ds[n - 1], cs[n - 1], ds[n], prefix, max, k);
      if k > 1 {
        RotationsKeepHistory(ds, cs, fss, prefix, max, n - 1, k - 1);
      }
    }
  }

  lemma OneBack(d: Files, c: Content, d': Files, prefix: string, max: int, k: nat)
    requires Shifted(d[prefix := c], d', prefix, max) && 1 <= k
    ensures var f, g := FileName(prefix, k), FileName(prefix, k - 1);
            && (f in d' <==> k < max && (k == 1 || g in d))
            && (f in d' ==> d'[f] == if k == 1 then c else d[g])
  {
    assert ShiftedAt(d[prefix := c], d', prefix, max, k - 1);
    assert k > 1 ==> FileName(prefix, k - 1) != prefix;
    hide Shifted;
  }

  ghost function NamesBelow(prefix: string, m: nat): set<string> {
    if m == 0 then {} else NamesBelow(prefix, m - 1) + {FileName(prefix, m - 1)}
  }

  lemma {:induction false} NamesBelowFacts(prefix: string, m: nat)
    ensures |NamesBelow(prefix, m)| <= m
    ensures forall k: nat | k < m :: FileName(prefix, k) in NamesBelow(prefix, m)
  {
    if m > 0 {
      NamesBelowFacts(prefix, m - 1);
    }
  }

  /** After a rotation there are at most as many files of this log as the maximum says. */
  lemma FileCount(d: Files, d': Files, prefix: string, max: int)
    requires Shifted(d, d', prefix, max)
    ensures |Matching(d', prefix)| <= if max >= 1 then max else 1
  {
    var m: nat := if max >= 1 then max else 1;
    NamesBelowFacts(prefix, m);
    forall n | n in Matching(d', prefix) ensures n in NamesBelow(prefix, m) {
      var k: nat := Sequence(prefix, n);
      assert n == FileName(prefix, k);
      if k > 0 {
        assert ShiftedAt(d, d', prefix, max, k - 1);
      }
    }
    SubsetSize(Matching(d', prefix), NamesBelow(prefix, m));
  }

  // ----------------------------------------------- what the order is for

  /** A file whose place another one will take is handled before it. */
  ghost predicate MakesRoom(prefix: string, fs: seq<LogInfo>, max: int) {
    forall i, j | 0 <= i < |fs| && 0 <= j < |fs| && !Dropped(fs[i], max) && Target(prefix, fs[i]) == fs[j].name :: j < i
  }

  lemma MakesRoomParts(prefix: string, fs: seq<LogInfo>, max: int)
    requires fs != []
    ensures MakesRoom(prefix, fs, max) <==>
            && (forall j | 0 <= j < |fs| && !Dropped(fs[0], max) :: Target(prefix, fs[0]) != fs[j].name)
            && MakesRoom(prefix, fs[1..], max)
  {
    hide Dropped, Target;
    var rest := fs[1..];
    assert forall i | 0 <= i < |rest| :: rest[i] == fs[i + 1];
    if MakesRoom(prefix, fs, max) {
      forall i, j | 0 <= i < |rest| && 0 <= j < |rest| && !Dropped(rest[i], max) && Target(prefix, rest[i]) == rest[j].name
        ensures j < i
      {
        assert fs[i + 1] == rest[i] && fs[j + 1] == rest[j];
      }
    } else {
      var i, j :| 0 <= i < |fs| && 0 <= j < |fs| && !Dropped(fs[i], max) && Target(prefix, fs[i]) == fs[j].name && j >= i;
      if i > 0 {
        assert rest[i - 1] == fs[i] && rest[j - 1] == fs[j];
      }
    }
  }

  lemma AnyOrderKeepsSettled(d: Files, prefix: string, fs: seq<LogInfo>, max: int)
    requires Present(d, prefix, fs) && fs != [] && Distinct(fs, max) && Settled(d, prefix, fs, max)
    ensures Settled(Handle(d, prefix, fs[0], max), prefix, fs[1..], max) && Distinct(fs[1..], max)
  {
    hide Sequence;
    NamesRest(fs);
    var d1, rest := Handle(d, prefix, fs[0], max), fs[1..];
    forall n, j | n in d1 && n !in Names(rest) && 0 <= j < |rest| && !Dropped(rest[j], max)
      ensures n != Target(prefix, rest[j])
    {
      TargetsDiffer(prefix, fs[0], rest[j]);
      assert rest[j] == fs[j + 1];
    }
  }

  lemma FirstIsClear(d: Files, prefix: string, fs: seq<LogInfo>, max: int)
    requires Present(d, prefix, fs) && fs != [] && Settled(d, prefix, fs, max) && !Dropped(fs[0], max)
    ensures Target(prefix, fs[0]) !in d <==> forall j | 0 <= j < |fs| :: Target(prefix, fs[0]) != fs[j].name
  {
  }

  /** In any order, if the numbers are distinct, nothing is overwritten exactly when each file makes room for the next. */
  lemma {:induction false} NoOverwriteIffMakesRoom(d: Files, prefix: string, fs: seq<LogInfo>, max: int)
    requires Present(d, prefix, fs) && Distinct(fs, max) && Settled(d, prefix, fs, max)
    ensures NoOverwrite(d, prefix, fs, max) <==> MakesRoom(prefix, fs, max)
    decreases |fs|
  {
    if fs != [] {
      hide Present, Settled, Distinct, Handle, MakesRoom;
      HandleKeepsPresent(d, prefix, fs, max);
      AnyOrderKeepsSettled(d, prefix, fs, max);
      MakesRoomParts(prefix, fs, max);
      NoOverwriteIffMakesRoom(Handle(d, prefix, fs[0], max), prefix, fs[1..], max);
      if !Dropped(fs[0], max) {
        FirstIsClear(d, prefix, fs, max);
      }
    }
  }

  /**
   What the descending sort is for.  With only Name and Name.k in the directory
   and the files taken in any order, no rename overwrites a live file if and
   only if file k + 1 comes before file k whenever both are there and k + 1 is
   below the maximum.
   */
  lemma OrderThatKeepsAll(d: Files, prefix: string, fs: seq<LogInfo>, max: int)
    requires Canonical(d, prefix) && Lists(d, prefix, fs)
    ensures NoOverwrite(d, prefix, fs, max) <==>
            forall i, j | 0 <= i < |fs| && 0 <= j < |fs| && fs[j].sequence == fs[i].sequence + 1 && fs[j].sequence < max :: j < i
  {
    ListedIsCanonical(d, prefix, fs, max);
    hide Lists, Canonical, NoOverwrite, Sequence;
    NoOverwriteIffMakesRoom(d, prefix, fs, max);
    hide Present, Settled, Distinct;
    forall i, j | 0 <= i < |fs| && 0 <= j < |fs|
      ensures Target(prefix, fs[i]) == fs[j].name <==> fs[j].sequence == fs[i].sequence + 1
    {
      FollowsIff(prefix, fs[i], fs[j]);
    }
    hide Target;
  }

  lemma ListedIsCanonical(d: Files, prefix: string, fs: seq<LogInfo>, max: int)
    requires Canonical(d, prefix) && Lists(d, prefix, fs)
    ensures Present(d, prefix, fs) && Distinct(fs, max) && Settled(d, prefix, fs, max)
    ensures forall i | 0 <= i < |fs| :: fs[i].sequence >= 0 && fs[i].name == FileName(prefix, fs[i].sequence)
  {
    hide Sequence, FileName;
    forall n, j | n in d && n !in Names(fs) && 0 <= j < |fs| && !Dropped(fs[j], max) ensures n != Target(prefix, fs[j]) {
    }
  }

  lemma FollowsIff(prefix: string, f: LogInfo, g: LogInfo)
    requires f.sequence >= 0 && g.sequence >= 0 && g.name == FileName(prefix, g.sequence)
    ensures Target(prefix, f) == g.name <==> g.sequence == f.sequence + 1
  {
    SequenceOfFileName(prefix, g.sequence);
    SequenceOfNumbered(prefix, f.sequence + 1);
    hide Sequence;
  }

  /** Name.0 shows the same number as Name, so rotation loses one of the two. */
  lemma NumberZeroIsLost()
    ensures var d, fs := map["a" := "x", "a.0" := "y"], [LogInfo(0, "a"), LogInfo(0, "a.0")];
            Listing(d, "a", fs) && !NoOverwrite(d, "a", fs, 50)
  {
    var d, fs := map["a" := "x", "a.0" := "y"], [LogInfo(0, "a"), LogInfo(0, "a.0")];
    assert "a.0" == Numbered("a", 0);
    SequenceOfNumbered("a", 0);
    assert fs[0].name == "a" && fs[1].name == "a.0";
    assert Listing(d, "a", fs);
    NoOverwriteIffDistinct(d, "a", fs, 50);
  }

  // ---------------------------------------------------------- the output

  class Output {
    /** The files of the log's directory. */
    var files: Files
    const name: string
    const max: int

    constructor (name: string, max: int, files: Files)
      ensures this.name == name && this.max == max
      ensures this.files == if name in files then files else files[name := ""]
    {
      this.name, this.max := name, max;
      this.files := if name in files then files else files[name := ""];
    }

    /** Appends to the open log file. */
    method Log(text: string)
      requires name in files
      modifies this
      ensures files == old(files)[name := old(files)[name] + text]
    {
      files := files[name := files[name] + text];
    }

    /** names is what ReadDir returns: the files of the directory, each once. */
    method OldLogFiles(names: seq<string>) returns (fs: seq<LogInfo>)
      requires forall n :: n in names <==> n in files
      requires forall i, j | 0 <= i < j < |names| :: names[i] != names[j]
      ensures Listing(files, name, fs)
    {
      hide Pending, Sequence, Inserted, Names;
      NothingPending(files, name);
      fs := [];
      for i := 0 to |names|
        invariant Pending(files, name, fs)
        invariant forall j | 0 <= j < i && name <= names[j] :: Info(name, names[j]) in fs
        invariant forall g | g in fs :: g.name in names[..i]
      {
        if name <= names[i] {
          assert names[i] !in names[..i];
          InsertedIsPending(files, name, fs, Info(name, names[i]));
          fs := Inserted(fs, Info(name, names[i]));
        }
      }
      forall n | n in files && name <= n ensures n in Names(fs) {
        assert Info(name, n) in fs;
        NamedIn(fs, Info(name, n));
      }
      ListingIs(files, name, fs);
    }

    method RollRunOnce(fs: seq<LogInfo>)
      requires Listing(files, name, fs)
      modifies this
      ensures files == Roll(old(files), name, fs, max)
    {
      if |fs| < 1 {
        return;
      }
      hide Pending, Handle;
      for i := 0 to |fs|
        invariant Pending(files, name, fs[i..])
        invariant HandleAll(files, name, fs[i..], max) == HandleAll(old(files), name, fs, max)
      {
        HandleKeepsPending(files, name, fs[i..], max);
        assert fs[i..][1..] == fs[i + 1..];
        RoundIsHandle(files, name, fs[i..], max);
        var f := fs[i];
        if f.sequence + 1 >= max {
          files := files - {f.name};
        } else {
          files := (files - {f.name})[NextFileName(name, f.sequence) := files[f.name]];
        }
      }
      if name !in files {
        files := files[name := ""];
      }
    }
  }

  function Info(prefix: string, name: string): LogInfo
    requires prefix <= name
  {
    LogInfo(Sequence(prefix, name), name)
  }

  /** f put in its place of the descending sort; the order of equal numbers is the sort's own. */
  function Inserted(fs: seq<LogInfo>, f: LogInfo): (r: seq<LogInfo>)
    ensures f in r && (forall g | g in fs :: g in r) && (forall g | g in r :: g == f || g in fs)
  {
    if fs == [] || fs[0].sequence < f.sequence then [f] + fs else [fs[0]] + Inserted(fs[1..], f)
  }

  lemma NothingPending(d: Files, prefix: string)
    ensures Pending(d, prefix, [])
  {
  }

  lemma ListingIs(d: Files, prefix: string, fs: seq<LogInfo>)
    requires Pending(d, prefix, fs) && forall n | n in d && prefix <= n :: n in Names(fs)
    ensures Listing(d, prefix, fs)
  {
  }

  lemma NamedIn(fs: seq<LogInfo>, f: LogInfo)
    requires f in fs
    ensures f.name in Names(fs)
  {
  }

  lemma PendingTail(d: Files, prefix: string, fs: seq<LogInfo>)
    requires Pending(d, prefix, fs) && fs != []
    ensures Pending(d, prefix, fs[1..])
    ensures forall g | g in fs[1..] :: g.name != fs[0].name && g.sequence <= fs[0].sequence
  {
  }

  lemma PendingCons(d: Files, prefix: string, f: LogInfo, fs: seq<LogInfo>)
    requires Pending(d, prefix, fs) && f.name in d && prefix <= f.name && f.sequence == Sequence(prefix, f.name)
    requires forall g | g in fs :: g.name != f.name && g.sequence <= f.sequence
    ensures Pending(d, prefix, [f] + fs)
  {
    hide Sequence;
  }

  lemma {:induction false} InsertedIsPending(d: Files, prefix: string, fs: seq<LogInfo>, f: LogInfo)
    requires Pending(d, prefix, fs) && f.name in d && prefix <= f.name && f.sequence == Sequence(prefix, f.name)
    requires forall g | g in fs :: g.name != f.name
    ensures Pending(d, prefix, Inserted(fs, f))
  {
    if fs == [] {
      NothingPending(d, prefix);
      PendingCons(d, prefix, f, fs);
    } else {
      PendingTail(d, prefix, fs);
      assert fs[0] in fs;
      assert fs == [fs[0]] + fs[1..];
      if fs[0].sequence < f.sequence {
        hide Pending, Sequence;
        PendingCons(d, prefix, f, fs);
      } else {
        InsertedIsPending(d, prefix, fs[1..], f);
        PendingCons(d, prefix, fs[0], Inserted(fs[1..], f));
      }
    }
  }

  lemma RoundIsHandle(d: Files, prefix: string, fs: seq<LogInfo>, max: int)
    requires Pending(d, prefix, fs) && fs != []
    ensures fs[0].name in d
    ensures Handle(d, prefix, fs[0], max)
            == if fs[0].sequence + 1 >= max then d - {fs[0].name}
               else (d - {fs[0].name})[NextFileName(prefix, fs[0].sequence) := d[fs[0].name]]
  {
  }
}
