/** Finding the files to scan (FileScannerService.ScanFilesAsync, first half, and
    GetFilesRecursive): the drives taken, the directories skipped, the extensions
    admitted, and what a cancellation during the walk leaves in the list. */
module Traversal {
  import opened Wrappers
  import opened Text

  // ---------------------------------------------------------------------------
  // The file system as the walk sees it
  // ---------------------------------------------------------------------------

  /** The two FileAttributes flags the walk looks at. */
  datatype Attributes = Attributes(system: bool, hidden: bool)

  /** A directory: its full path, its attributes (None when reading them throws), the
      full paths returned by Directory.GetFiles (None when the call throws) and the
      sub-directories returned by Directory.GetDirectories, with whether that call
      succeeds. */
  datatype Dir = Dir(path: string, attributes: Option<Attributes>, files: Option<seq<string>>,
                     subdirsListed: bool, subdirs: seq<Dir>)

  /** DriveInfo.DriveType. */
  datatype DriveType = UnknownType | NoRootDirectory | Removable | Fixed | Network | CDRom | Ram

  /** A drive: DriveInfo.IsReady, DriveInfo.DriveType and its root directory. */
  datatype Drive = Drive(isReady: bool, driveType: DriveType, root: Dir)

  /** When the cancellation token turns: never, or from the n-th time it is polled on
      (polls are numbered from 0 over the whole search). Once cancelled, it stays so. */
  datatype Cancellation = Never | AtPoll(n: nat)

  /** What the `p`-th poll of IsCancellationRequested reads. */
  predicate Cancelled(sched: Cancellation, p: int) {
    sched.AtPoll? && p >= sched.n
  }

  // ---------------------------------------------------------------------------
  // Path.GetExtension
  // ---------------------------------------------------------------------------

  predicate IsDirectorySeparator(c: char) {
    c == '\\' || c == '/'
  }

  /** Index of the last '.' in path[..i] that comes after every directory separator. */
  function LastDot(path: string, i: nat): (r: Option<nat>)
    requires i <= |path|
    ensures r.Some? ==> r.value < i
  {
    if i == 0 then None
    else if path[i - 1] == '.' then Some(i - 1)
    else if IsDirectorySeparator(path[i - 1]) then None
    else LastDot(path, i - 1)
  }

  /** LastDot finds a '.' with neither a '.' nor a separator after it, and finds none
      only when every '.' is followed by a separator. */
  lemma {:induction false} LastDotSpec(path: string, i: nat)
    requires i <= |path|
    ensures LastDot(path, i).Some? ==> path[LastDot(path, i).value] == '.'
    ensures LastDot(path, i).Some? ==>
              forall k :: LastDot(path, i).value < k < i ==> path[k] != '.' && !IsDirectorySeparator(path[k])
    ensures LastDot(path, i).None? ==>
              forall k :: 0 <= k < i && path[k] == '.' ==> exists m :: k < m < i && IsDirectorySeparator(path[m])
  {
    if i > 0 && path[i - 1] != '.' && !IsDirectorySeparator(path[i - 1]) {
      LastDotSpec(path, i - 1);
    }
  }

  /** Path.GetExtension: from the last '.' of the file name to the end, or "" when the
      file name has no '.' or ends with it. */
  function Extension(path: string): string {
    var dot := LastDot(path, |path|);
    if dot.Some? && dot.value != |path| - 1 then path[dot.value..] else []
  }

  /** A non-empty extension is a suffix of the path of two characters at least that
      starts with its only '.' and holds no separator; the extension is empty exactly
      when the file name has no '.' or ends with one. */
  lemma {:induction false} ExtensionSpec(path: string)
    ensures var r := Extension(path);
            r == [] || (2 <= |r| <= |path| && r[0] == '.' && r == path[|path| - |r|..])
    ensures forall k :: 1 <= k < |Extension(path)| ==>
              Extension(path)[k] != '.' && !IsDirectorySeparator(Extension(path)[k])
    ensures Extension(path) == [] <==>
              LastDot(path, |path|).None? || path[|path| - 1] == '.'
  {
    LastDotSpec(path, |path|);
    var dot := LastDot(path, |path|);
    if dot.Some? && dot.value != |path| - 1 {
      var r := path[dot.value..];
      forall k | 1 <= k < |r| ensures r[k] != '.' && !IsDirectorySeparator(r[k]) {
        assert r[k] == path[dot.value + k];
      }
    } else if dot.Some? {
      assert path[|path| - 1] == '.';
    }
  }

  /** The extension test of the walk: `Path.GetExtension(file).ToLower()` is in the list. */
  predicate Admits(exts: seq<string>, file: string) {
    Lower(Extension(file)) in exts
  }

  /** The extension test as the predicate the walk is given. */
  function ExtensionFilter(exts: seq<string>): string -> bool {
    file => Admits(exts, file)
  }

  // ---------------------------------------------------------------------------
  // What an uninterrupted walk finds
  // ---------------------------------------------------------------------------

  /** The files of one listing that the extension test keeps, in listing order. */
  function Admitted(files: seq<string>, keep: string -> bool): (r: seq<string>)
    ensures forall f :: f in r ==> f in files && keep(f)
  {
    if files == [] then []
    else
      var f := files[|files| - 1];
      Admitted(files[..|files| - 1], keep) + (if keep(f) then [f] else [])
  }

  /** GetFilesRecursive when the token is never cancelled: nothing from a directory whose
      attributes cannot be read or that is a system or hidden directory; nothing from a
      directory whose files cannot be listed; otherwise its admitted files, then what each
      sub-directory yields, in listing order (nothing more when the sub-directories
      cannot be listed). */
  function Collect(d: Dir, keep: string -> bool): seq<string>
    decreases d
  {
    if !Walkable(d) then []
    else Admitted(d.files.value, keep) + (if d.subdirsListed then CollectAll(d.subdirs, keep) else [])
  }

  /** The directory's attributes can be read, it is neither a system nor a hidden
      directory, and its files can be listed. */
  predicate Walkable(d: Dir) {
    d.attributes.Some? && !d.attributes.value.system && !d.attributes.value.hidden && d.files.Some?
  }

  /** What the directories `ds` yield, one after the other. */
  function CollectAll(ds: seq<Dir>, keep: string -> bool): seq<string>
    decreases ds
  {
    if ds == [] then [] else CollectAll(ds[..|ds| - 1], keep) + Collect(ds[|ds| - 1], keep)
  }

  /** One more file of the listing. */
  lemma {:induction false} AdmittedSnoc(files: seq<string>, i: nat, keep: string -> bool)
    requires i < |files|
    ensures Admitted(files[..i + 1], keep) ==
            Admitted(files[..i], keep) + (if keep(files[i]) then [files[i]] else [])
  {
    assert files[..i + 1][..i] == files[..i];
  }

  lemma {:induction false} AdmittedPrefix(files: seq<string>, keep: string -> bool, i: nat)
    requires i <= |files|
    ensures Admitted(files[..i], keep) <= Admitted(files, keep)
    decreases |files|
  {
    if i < |files| {
      AdmittedPrefix(files[..|files| - 1], keep, i);
      assert files[..|files| - 1][..i] == files[..i];
    } else {
      assert files[..i] == files;
    }
  }

  lemma {:induction false} CollectAllPrefix(ds: seq<Dir>, keep: string -> bool, j: nat)
    requires j <= |ds|
    ensures CollectAll(ds[..j], keep) <= CollectAll(ds, keep)
    decreases |ds|
  {
    if j < |ds| {
      CollectAllPrefix(ds[..|ds| - 1], keep, j);
      assert ds[..|ds| - 1][..j] == ds[..j];
      PrefixTrans(CollectAll(ds[..j], keep), CollectAll(ds[..|ds| - 1], keep), CollectAll(ds, keep));
    } else {
      assert ds[..j] == ds;
    }
  }

  lemma {:induction false} PrefixTrans<T>(x: seq<T>, y: seq<T>, z: seq<T>)
    requires x <= y && y <= z
    ensures x <= z
  {
    assert z[..|x|] == y[..|x|];
  }

  lemma {:induction false} PrefixExtend<T>(p: seq<T>, x: seq<T>, y: seq<T>)
    requires x <= y
    ensures p + x <= p + y
  {
    assert (p + y)[..|p + x|] == p + y[..|x|];
  }

  /** Every file the walk yields has one of the requested extensions: the extension
      filter applies at every depth. */
  lemma {:induction false} CollectAdmits(d: Dir, keep: string -> bool)
    ensures forall f :: f in Collect(d, keep) ==> keep(f)
    decreases d
  {
    if Walkable(d) && d.subdirsListed {
      CollectAllAdmits(d.subdirs, keep);
    }
  }

  lemma {:induction false} CollectAllAdmits(ds: seq<Dir>, keep: string -> bool)
    ensures forall f :: f in CollectAll(ds, keep) ==> keep(f)
    decreases ds
  {
    if ds != [] {
      CollectAllAdmits(ds[..|ds| - 1], keep);
      CollectAdmits(ds[|ds| - 1], keep);
    }
  }

  /** With the extension test: every file of the walk has, lower-cased, one of the
      requested extensions. */
  lemma {:induction false} CollectHasRequestedExtension(d: Dir, exts: seq<string>)
    ensures forall f :: f in Collect(d, ExtensionFilter(exts)) ==> Lower(Extension(f)) in exts
  {
    CollectAdmits(d, ExtensionFilter(exts));
    forall f | f in Collect(d, ExtensionFilter(exts)) ensures Lower(Extension(f)) in exts {
      assert ExtensionFilter(exts)(f);
    }
  }

  /** A system or hidden directory is skipped with its whole subtree, whatever it holds. */
  lemma {:induction false} SkipsSystemAndHidden(d: Dir, keep: string -> bool)
    requires d.attributes.Some? && (d.attributes.value.system || d.attributes.value.hidden)
    ensures Collect(d, keep) == []
  {
  }

  /** A sub-directory that cannot be read contributes nothing, and its siblings are
      walked as if it were not there. */
  lemma {:induction false} UnreadableSubdirSkipped(before: seq<Dir>, bad: Dir, after: seq<Dir>, keep: string -> bool)
    requires bad.attributes.None? || bad.files.None?
    ensures CollectAll(before + [bad] + after, keep) == CollectAll(before + after, keep)
    decreases |after|
  {
    if after == [] {
      assert before + [bad] + after == before + [bad];
      assert before + after == before;
      CollectAllSnoc(before, bad, keep);
    } else {
      var a' := after[..|after| - 1];
      var x := after[|after| - 1];
      UnreadableSubdirSkipped(before, bad, a', keep);
      assert before + [bad] + after == (before + [bad] + a') + [x];
      assert before + after == (before + a') + [x];
      CollectAllSnoc(before + [bad] + a', x, keep);
      CollectAllSnoc(before + a', x, keep);
    }
  }

  lemma {:induction false} CollectAllSnoc(ds: seq<Dir>, d: Dir, keep: string -> bool)
    ensures CollectAll(ds + [d], keep) == CollectAll(ds, keep) + Collect(d, keep)
  {
    assert (ds + [d])[..|ds|] == ds;
  }

  // ---------------------------------------------------------------------------
  // GetFilesRecursive
  // ---------------------------------------------------------------------------

  /** GetFilesRecursive, polling the token from poll number `polls` on; `next` is the
      number of the first poll after it returns. The extension test is passed as `keep`
      (FindFiles passes ExtensionFilter of the requested extensions). The files found are
      always a prefix of what an uninterrupted walk finds; all of it when no poll read
      "cancelled"; nothing when the first poll did. */
  method GetFilesRecursive(d: Dir, keep: string -> bool, sched: Cancellation, polls: nat)
    returns (files: seq<string>, next: nat)
    ensures polls < next
    ensures Cancelled(sched, polls) ==> files == [] && next == polls + 1
    ensures files <= Collect(d, keep)
    ensures !Cancelled(sched, next - 1) ==> files == Collect(d, keep)
    decreases d
  {
    files := [];
    next := polls + 1;
    if Cancelled(sched, polls) {
      return;
    }
    if d.attributes.None? || d.attributes.value.system || d.attributes.value.hidden {
      return;
    }
    if d.files.None? {
      return;
    }
    var entries := d.files.value;
    files, next := ListMatchingFiles(entries, keep, sched, next);
    var own := Admitted(entries, keep);
    if !d.subdirsListed {
      return;
    }
    var subs := d.subdirs;
    assert Collect(d, keep) == own + CollectAll(subs, keep);
    PrefixExtend([], files, own);
    assert [] + files == files && [] + own == own;
    PrefixTrans(files, own, Collect(d, keep));
    var j := 0;
    while j < |subs|
      invariant 0 <= j <= |subs| && polls < next
      invariant files <= Collect(d, keep)
      invariant !Cancelled(sched, next - 1) ==> files == own + CollectAll(subs[..j], keep)
    {
      if Cancelled(sched, next) {
        next := next + 1;
        break;
      }
      next := next + 1;
      var before := files;
      var found, after := GetFilesRecursive(subs[j], keep, sched, next);
      files := before + found;
      next := after;
      SubdirStep(before, own, subs, j, found, keep);
      j := j + 1;
    }
    assert !Cancelled(sched, next - 1) ==> subs[..j] == subs;
  }

  /** The first loop of GetFilesRecursive: the listed files that pass the test, polling
      the token before each file and stopping at the first poll that reads "cancelled". */
  method ListMatchingFiles(entries: seq<string>, keep: string -> bool, sched: Cancellation, polls: nat)
    returns (files: seq<string>, next: nat)
    requires !Cancelled(sched, polls - 1)
    ensures polls <= next
    ensures files <= Admitted(entries, keep)
    ensures !Cancelled(sched, next - 1) ==> files == Admitted(entries, keep)
  {
    files := [];
    next := polls;
    var i := 0;
    while i < |entries|
      invariant 0 <= i <= |entries| && polls <= next
      invariant files == Admitted(entries[..i], keep)
      invariant !Cancelled(sched, next - 1)
    {
      if Cancelled(sched, next) {
        next := next + 1;
        break;
      }
      next := next + 1;
      var file := entries[i];
      AdmittedSnoc(entries, i, keep);
      if keep(file) {
        files := files + [file];
      }
      i := i + 1;
    }
    AdmittedPrefix(entries, keep, i);
    assert !Cancelled(sched, next - 1) ==> entries[..i] == entries;
  }

  /** One turn of the sub-directory loop: what a sub-directory yields extends the list
      found so far without leaving the uninterrupted result. */
  lemma {:induction false} SubdirStep(before: seq<string>, own: seq<string>, subs: seq<Dir>, j: nat,
                                      found: seq<string>, keep: string -> bool)
    requires j < |subs| && found <= Collect(subs[j], keep)
    requires before == own + CollectAll(subs[..j], keep)
    ensures before + found <= own + CollectAll(subs, keep)
    ensures found == Collect(subs[j], keep) ==> before + found == own + CollectAll(subs[..j + 1], keep)
  {
    var pre := before;
    var upTo := own + CollectAll(subs[..j + 1], keep);
    var whole := own + CollectAll(subs, keep);
    assert pre + Collect(subs[j], keep) == upTo by {
      assert subs[..j + 1] == subs[..j] + [subs[j]];
      CollectAllSnoc(subs[..j], subs[j], keep);
    }
    assert pre + found <= upTo by {
      PrefixExtend(pre, found, Collect(subs[j], keep));
    }
    assert upTo <= whole by {
      CollectAllPrefix(subs, keep, j + 1);
      PrefixExtend(own, CollectAll(subs[..j + 1], keep), CollectAll(subs, keep));
    }
    PrefixTrans(pre + found, upTo, whole);
  }

  // ---------------------------------------------------------------------------
  // The drives
  // ---------------------------------------------------------------------------

  /** The drive filter exactly as written: `d.IsReady && d.DriveType == Fixed ||
      d.DriveType == Removable`, where && binds tighter than ||. */
  predicate DriveAdmitted(d: Drive) {
    (d.isReady && d.driveType == Fixed) || d.driveType == Removable
  }

  /** The precedence of the filter: a removable drive is taken even when it is not
      ready, while a fixed drive must be ready and no other kind is ever taken. */
  lemma {:induction false} DriveFilterPrecedence(d: Drive)
    ensures DriveAdmitted(d) <==> d.driveType == Removable || (d.driveType == Fixed && d.isReady)
    ensures d.driveType == Removable && !d.isReady ==> DriveAdmitted(d)
    ensures d.driveType != Removable && d.driveType != Fixed ==> !DriveAdmitted(d)
  {
  }

  /** The root directories of the drives the filter takes, in drive order. */
  function ScanRoots(drives: seq<Drive>): (r: seq<Dir>)
    ensures |r| <= |drives|
    ensures forall k :: 0 <= k < |r| ==> exists m :: 0 <= m < |drives| && DriveAdmitted(drives[m]) && drives[m].root == r[k]
  {
    if drives == [] then []
    else
      var p := ScanRoots(drives[..|drives| - 1]);
      var d := drives[|drives| - 1];
      if DriveAdmitted(d) then p + [d.root] else p
  }

  /** The first phase of ScanFilesAsync: walk the root of every drive the filter takes,
      polling the token before each drive. The list is a prefix of what an uninterrupted
      search finds, and all of it when no poll read "cancelled". */
  method FindFiles(drives: seq<Drive>, exts: seq<string>, sched: Cancellation, polls: nat)
    returns (allFiles: seq<string>, next: nat)
    ensures polls <= next
    ensures allFiles <= CollectAll(ScanRoots(drives), ExtensionFilter(exts))
    ensures next == polls || !Cancelled(sched, next - 1) ==> allFiles == CollectAll(ScanRoots(drives), ExtensionFilter(exts))
  {
    var roots := ScanRoots(drives);
    var keep := ExtensionFilter(exts);
    allFiles := [];
    next := polls;
    var i := 0;
    while i < |roots|
      invariant 0 <= i <= |roots| && polls <= next
      invariant allFiles <= CollectAll(roots, keep)
      invariant next == polls || !Cancelled(sched, next - 1) ==> allFiles == CollectAll(roots[..i], keep)
    {
      if Cancelled(sched, next) {
        next := next + 1;
        break;
      }
      next := next + 1;
      var files, after := GetFilesRecursive(roots[i], keep, sched, next);
      RootStep(allFiles, roots, i, files, keep);
      allFiles := allFiles + files;
      next := after;
      i := i + 1;
    }
    assert next == polls || !Cancelled(sched, next - 1) ==> roots[..i] == roots;
  }

  /** One turn of the drive loop: what a root yields extends the list found so far
      without leaving the uninterrupted result. */
  lemma {:induction false} RootStep(before: seq<string>, roots: seq<Dir>, i: nat, found: seq<string>,
                                    keep: string -> bool)
    requires i < |roots| && found <= Collect(roots[i], keep)
    requires before == CollectAll(roots[..i], keep)
    ensures before + found <= CollectAll(roots, keep)
    ensures found == Collect(roots[i], keep) ==> before + found == CollectAll(roots[..i + 1], keep)
  {
    assert before == [] + CollectAll(roots[..i], keep);
    SubdirStep(before, [], roots, i, found, keep);
    assert [] + CollectAll(roots, keep) == CollectAll(roots, keep);
    assert [] + CollectAll(roots[..i + 1], keep) == CollectAll(roots[..i + 1], keep);
  }
}
