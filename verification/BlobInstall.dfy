/**
  Bringing a pod's blob slots in line with a release's manifest (cmd/benchpod-cli/blobs.go): fetchBlob,
  blobsToInstall and installBlobsList over the USB console or the pod's network API (blobs_target.go).
*/
module BlobInstall {
  import opened Bytes
  import opened Outcomes
  import opened Text
  import Base64Url
  import UploadPod
  import UploadSafety
  import UploadExchange
  import ConsoleUpload
  import LanUpload

  /** A manifest entry. */
  datatype Entry = Entry(name: string, file: string, size: int, sha: string, version: int)

  /** A slot as the pod reports it; sha is empty for an empty slot. */
  datatype Slot = Slot(name: string, size: int, sha: string, version: int)

  /** The blob files at the source; a name not in it cannot be read. */
  type Source = map<string, Data>

  /** fetchBlob: the file, if it has the size and the digest the manifest says. */
  function Fetch(sha: Sha, src: Source, e: Entry): Result<Data> {
    if e.file !in src then Err("blob cannot be read")
    else if |src[e.file]| != e.size || !EqualFold(sha(src[e.file]), e.sha) then Err("blob does not match its manifest")
    else Ok(src[e.file])
  }

  /** The slot of a name: the last the pod lists under it. */
  function Have(slots: seq<Slot>, name: string): Option<Slot> {
    if slots == [] then None
    else if slots[|slots| - 1].name == name then Some(slots[|slots| - 1])
    else Have(slots[..|slots| - 1], name)
  }

  /** An entry with something to install, for a slot the firmware knows. */
  predicate Applies(slots: seq<Slot>, e: Entry) {
    e.size != 0 && e.file != "" && Have(slots, e.name).Some?
  }

  predicate Holds(s: Slot, e: Entry) {
    EqualFold(s.sha, e.sha) && s.size == e.size
  }

  predicate Wanted(slots: seq<Slot>, e: Entry, force: bool) {
    Applies(slots, e) && (force || !Holds(Have(slots, e.name).value, e))
  }

  function ToInstall(m: seq<Entry>, slots: seq<Slot>, force: bool): seq<Entry> {
    if m == [] then []
    else ToInstall(m[..|m| - 1], slots, force) + if Wanted(slots, m[|m| - 1], force) then [m[|m| - 1]] else []
  }

  function Filter(es: seq<Entry>, only: set<string>): seq<Entry> {
    if es == [] then []
    else Filter(es[..|es| - 1], only) + if es[|es| - 1].name in only then [es[|es| - 1]] else []
  }

  /** What a committed upload leaves: the slot reports the image's size, digest and version. */
  function Installed(sha: Sha, slots: seq<Slot>, e: Entry, data: Data): (r: seq<Slot>)
    ensures |r| == |slots|
  {
    seq(|slots|, i requires 0 <= i < |slots| =>
      if slots[i].name == e.name then Slot(e.name, |data|, sha(data), e.version) else slots[i])
  }

  function InstallAll(sha: Sha, src: Source, slots: seq<Slot>, es: seq<Entry>): (r: seq<Slot>)
    ensures |r| == |slots|
  {
    if es == [] then slots
    else
      var before, e := InstallAll(sha, src, slots, es[..|es| - 1]), es[|es| - 1];
      if e.file in src then Installed(sha, before, e, src[e.file]) else before
  }

  // ── what is in the slots after an install ──

  lemma {:induction false} HaveAfter(sha: Sha, slots: seq<Slot>, e: Entry, data: Data, name: string)
    ensures var now := Have(Installed(sha, slots, e, data), name);
            if Have(slots, name).None? then now.None?
            else if name == e.name then now == Some(Slot(name, |data|, sha(data), e.version))
            else now == Have(slots, name)
  {
    if slots != [] {
      var front := slots[..|slots| - 1];
      assert Installed(sha, slots, e, data)[..|slots| - 1] == Installed(sha, front, e, data);
      HaveAfter(sha, front, e, data, name);
    }
  }

  predicate AllFetch(sha: Sha, src: Source, es: seq<Entry>) {
    forall i | 0 <= i < |es| :: Fetch(sha, src, es[i]).Ok?
  }

  /** The last entry for a name. */
  function LastFor(es: seq<Entry>, name: string): Option<Entry> {
    if es == [] then None
    else if es[|es| - 1].name == name then Some(es[|es| - 1])
    else LastFor(es[..|es| - 1], name)
  }

  lemma {:induction false} LastForIsIn(es: seq<Entry>, name: string)
    ensures LastFor(es, name).None? <==> forall i | 0 <= i < |es| :: es[i].name != name
    ensures LastFor(es, name).Some? ==> LastFor(es, name).value in es && LastFor(es, name).value.name == name
  {
    if es != [] {
      LastForIsIn(es[..|es| - 1], name);
      assert forall i | 0 <= i < |es| - 1 :: es[i] == es[..|es| - 1][i];
    }
  }

  /** A name's slot holds the last entry installed for it, and is as it was if there is none. */
  lemma {:induction false} SlotAfterAll(sha: Sha, src: Source, slots: seq<Slot>, es: seq<Entry>, name: string)
    requires AllFetch(sha, src, es) && Have(slots, name).Some?
    ensures var now, last := Have(InstallAll(sha, src, slots, es), name), LastFor(es, name);
            && now.Some?
            && (last.None? ==> now == Have(slots, name))
            && (last.Some? ==> Holds(now.value, last.value) && now.value.version == last.value.version)
  {
    if es != [] {
      var e, front := es[|es| - 1], es[..|es| - 1];
      assert Fetch(sha, src, e).Ok?;
      assert AllFetch(sha, src, front) by {
        forall i | 0 <= i < |front| ensures Fetch(sha, src, front[i]).Ok? {
          assert front[i] == es[i];
        }
      }
      SlotAfterAll(sha, src, slots, front, name);
      HaveAfter(sha, InstallAll(sha, src, slots, front), e, src[e.file], name);
    }
  }

  lemma {:induction false} UnknownStaysUnknown(sha: Sha, src: Source, slots: seq<Slot>, es: seq<Entry>, name: string)
    requires Have(slots, name).None?
    ensures Have(InstallAll(sha, src, slots, es), name).None?
  {
    if es != [] {
      var e, front := es[|es| - 1], es[..|es| - 1];
      UnknownStaysUnknown(sha, src, slots, front, name);
      if e.file in src {
        HaveAfter(sha, InstallAll(sha, src, slots, front), e, src[e.file], name);
      }
    }
  }

  /** A slot no entry names keeps everything it reports. */
  lemma {:induction false} OthersUntouched(sha: Sha, src: Source, slots: seq<Slot>, es: seq<Entry>, i: nat)
    requires i < |slots| && forall j | 0 <= j < |es| :: es[j].name != slots[i].name
    ensures InstallAll(sha, src, slots, es)[i] == slots[i]
  {
    if es != [] {
      var front := es[..|es| - 1];
      forall j | 0 <= j < |front| ensures front[j].name != slots[i].name {
        assert front[j] == es[j];
      }
      OthersUntouched(sha, src, slots, front, i);
      assert es[|es| - 1].name != slots[i].name;
    }
  }

  // ── what the selections keep, and in what order ──

  /** f is what es has that is kept, in es's order: at tells where each stood. */
  ghost predicate Selects(es: seq<Entry>, keep: Entry -> bool, f: seq<Entry>, at: seq<nat>) {
    && |at| == |f| && (forall k | 0 <= k < |f| :: at[k] < |es| && f[k] == es[at[k]] && keep(f[k]))
    && (forall j, k | 0 <= j < k < |at| :: at[j] < at[k])
    && (forall i | 0 <= i < |es| && keep(es[i]) :: es[i] in f)
  }

  lemma SelectsMore(es: seq<Entry>, e: Entry, keep: Entry -> bool, f: seq<Entry>, at: seq<nat>)
    requires Selects(es, keep, f, at)
    ensures keep(e) ==> Selects(es + [e], keep, f + [e], at + [|es|])
    ensures !keep(e) ==> Selects(es + [e], keep, f, at)
  {
  }

  /** --only keeps exactly the entries with the names given, in their order. */
  lemma {:induction false} FilterSelects(es: seq<Entry>, only: set<string>) returns (at: seq<nat>)
    ensures Selects(es, (e: Entry) => e.name in only, Filter(es, only), at)
  {
    if es == [] {
      at := [];
    } else {
      var front, last := es[..|es| - 1], es[|es| - 1];
      at := FilterSelects(front, only);
      SelectsMore(front, last, (e: Entry) => e.name in only, Filter(front, only), at);
      assert es == front + [last];
      if last.name in only {
        at := at + [|front|];
      }
    }
  }

  /** The slot the pod lists last under a name. */
  lemma {:induction false} HaveIsLast(slots: seq<Slot>, name: string, s: Slot)
    ensures Have(slots, name) == Some(s) <==>
              exists i | 0 <= i < |slots| :: slots[i] == s && s.name == name && NoneLater(slots, name, i)
  {
    if slots != [] {
      var front, n := slots[..|slots| - 1], |slots| - 1;
      HaveIsLast(front, name, s);
      if slots[n].name == name {
        assert NoneLater(slots, name, n);
      } else if Have(front, name) == Some(s) {
        var i :| 0 <= i < |front| && front[i] == s && s.name == name && NoneLater(front, name, i);
        assert NoneLater(slots, name, i);
      } else {
        forall i | 0 <= i < |slots| && slots[i] == s && s.name == name && NoneLater(slots, name, i) ensures false {
          assert front[i] == s && NoneLater(front, name, i);
        }
      }
    }
  }

  predicate NoneLater(slots: seq<Slot>, name: string, i: nat) {
    forall j | i < j < |slots| :: slots[j].name != name
  }

  /**
    What is to be installed: exactly the entries with something to install for a slot the pod lists, unless the
    slot's last line already shows that digest, up to case, and size; all of the former with --force.
  */
  lemma ToInstallIff(m: seq<Entry>, slots: seq<Slot>, force: bool, e: Entry)
    ensures e in ToInstall(m, slots, force) <==>
              && e in m && e.size != 0 && e.file != ""
              && exists i ::
                   && 0 <= i < |slots| && slots[i].name == e.name && NoneLater(slots, e.name, i)
                   && (force || slots[i].size != e.size || !EqualFold(slots[i].sha, e.sha))
  {
    ToInstallIsIn(m, slots, force, e);
    if Have(slots, e.name).Some? {
      HaveIsLast(slots, e.name, Have(slots, e.name).value);
    }
    forall i | 0 <= i < |slots| && slots[i].name == e.name && NoneLater(slots, e.name, i)
      ensures Have(slots, e.name) == Some(slots[i])
    {
      HaveIsLast(slots, e.name, slots[i]);
    }
  }

  /** It comes in the manifest's order. */
  lemma {:induction false} ToInstallSelects(m: seq<Entry>, slots: seq<Slot>, force: bool) returns (at: seq<nat>)
    ensures Selects(m, (e: Entry) => Wanted(slots, e, force), ToInstall(m, slots, force), at)
  {
    if m == [] {
      at := [];
    } else {
      var front, last := m[..|m| - 1], m[|m| - 1];
      at := ToInstallSelects(front, slots, force);
      SelectsMore(front, last, (e: Entry) => Wanted(slots, e, force), ToInstall(front, slots, force), at);
      assert m == front + [last];
      if Wanted(slots, last, force) {
        at := at + [|front|];
      }
    }
  }

  /** With names given it is exactly that of it which bears one of them. */
  lemma TodoIff(m: seq<Entry>, slots: seq<Slot>, force: bool, only: Option<set<string>>, e: Entry)
    ensures e in Todo(m, slots, force, only) <==>
              e in ToInstall(m, slots, force) && (only.Some? && only.value != {} ==> e.name in only.value)
  {
    if only.Some? && only.value != {} {
      var todo := ToInstall(m, slots, force);
      var at := FilterSelects(todo, only.value);
      if e in todo && e.name in only.value {
        var i :| 0 <= i < |todo| && todo[i] == e;
      }
    }
  }

  // ── what is left to install ──

  lemma {:induction false} ToInstallIsIn(m: seq<Entry>, slots: seq<Slot>, force: bool, e: Entry)
    ensures e in ToInstall(m, slots, force) <==> e in m && Wanted(slots, e, force)
  {
    if m != [] {
      ToInstallIsIn(m[..|m| - 1], slots, force, e);
      assert m == m[..|m| - 1] + [m[|m| - 1]];
    }
  }

  /** No two applicable entries for one slot disagree. */
  predicate Consistent(m: seq<Entry>, slots: seq<Slot>) {
    forall i, j |
      0 <= i < |m| && 0 <= j < |m| && m[i].name == m[j].name && Applies(slots, m[i]) && Applies(slots, m[j]) ::
      EqualFold(m[i].sha, m[j].sha) && m[i].size == m[j].size
  }

  lemma KnownAlike(sha: Sha, src: Source, slots: seq<Slot>, es: seq<Entry>, name: string)
    requires AllFetch(sha, src, es)
    ensures Have(InstallAll(sha, src, slots, es), name).Some? <==> Have(slots, name).Some?
  {
    if Have(slots, name).Some? {
      SlotAfterAll(sha, src, slots, es, name);
    } else {
      UnknownStaysUnknown(sha, src, slots, es, name);
    }
  }

  /** With agreeing entries, one that applies is satisfied once the install is done. */
  lemma SatisfiedAfter(sha: Sha, src: Source, m: seq<Entry>, slots: seq<Slot>, e: Entry)
    requires AllFetch(sha, src, ToInstall(m, slots, false)) && Consistent(m, slots)
    requires e in m && Applies(slots, e)
    ensures Have(InstallAll(sha, src, slots, ToInstall(m, slots, false)), e.name).Some?
    ensures Holds(Have(InstallAll(sha, src, slots, ToInstall(m, slots, false)), e.name).value, e)
  {
    var todo := ToInstall(m, slots, false);
    SlotAfterAll(sha, src, slots, todo, e.name);
    LastForIsIn(todo, e.name);
    ToInstallIsIn(m, slots, false, e);
    var last := LastFor(todo, e.name);
    if last.Some? {
      ToInstallIsIn(m, slots, false, last.value);
    }
  }

  /**
    A complete install leaves nothing to install exactly when no two entries for one slot disagree; in
    particular when the manifest's names are distinct.
  */
  lemma ConvergesIff(sha: Sha, src: Source, m: seq<Entry>, slots: seq<Slot>)
    requires AllFetch(sha, src, ToInstall(m, slots, false))
    ensures ToInstall(m, InstallAll(sha, src, slots, ToInstall(m, slots, false)), false) == [] <==> Consistent(m, slots)
  {
    var todo := ToInstall(m, slots, false);
    var after := InstallAll(sha, src, slots, todo);
    var left := ToInstall(m, after, false);
    if Consistent(m, slots) {
      if left != [] {
        var e := left[0];
        ToInstallIsIn(m, after, false, e);
        KnownAlike(sha, src, slots, todo, e.name);
        SatisfiedAfter(sha, src, m, slots, e);
      }
    } else {
      var i, j :| 0 <= i < |m| && 0 <= j < |m| && m[i].name == m[j].name && Applies(slots, m[i]) && Applies(slots, m[j])
                  && !(EqualFold(m[i].sha, m[j].sha) && m[i].size == m[j].size);
      KnownAlike(sha, src, slots, todo, m[i].name);
      ToInstallIsIn(m, after, false, m[i]);
      ToInstallIsIn(m, after, false, m[j]);
    }
  }

  predicate DistinctNames(m: seq<Entry>) {
    forall i, j | 0 <= i < j < |m| :: m[i].name != m[j].name
  }

  lemma {:induction false} ToInstallNames(m: seq<Entry>, slots: seq<Slot>, force: bool)
    requires DistinctNames(m)
    ensures DistinctNames(ToInstall(m, slots, force))
  {
    if m != [] {
      var front, last := m[..|m| - 1], m[|m| - 1];
      ToInstallNames(front, slots, force);
      var todo := ToInstall(front, slots, force);
      forall i | 0 <= i < |todo| ensures todo[i].name != last.name {
        ToInstallIsIn(front, slots, force, todo[i]);
      }
    }
  }

  lemma SameName(m: seq<Entry>, a: Entry, b: Entry)
    requires DistinctNames(m) && a in m && b in m && a.name == b.name
    ensures a == b
  {
    var i, j :| 0 <= i < |m| && 0 <= j < |m| && m[i] == a && m[j] == b;
  }

  /** Installing some of the entries settles those and no other. */
  lemma SettlesThose(sha: Sha, src: Source, m: seq<Entry>, slots: seq<Slot>, done: seq<Entry>, e: Entry)
    requires DistinctNames(m) && AllFetch(sha, src, done) && (forall d | d in done :: d in m) && e in m
    ensures Wanted(InstallAll(sha, src, slots, done), e, false) <==> Wanted(slots, e, false) && e !in done
  {
    KnownAlike(sha, src, slots, done, e.name);
    LastForIsIn(done, e.name);
    if Have(slots, e.name).Some? {
      SlotAfterAll(sha, src, slots, done, e.name);
      var last := LastFor(done, e.name);
      if last.Some? {
        SameName(m, last.value, e);
      }
    }
  }

  lemma {:induction false} RestIsLeft(m: seq<Entry>, slots: seq<Slot>, after: seq<Slot>, done: seq<Entry>)
    requires DistinctNames(m)
    requires forall e | e in m :: Wanted(after, e, false) <==> Wanted(slots, e, false) && e !in done
    requires var t := ToInstall(m, slots, false); t[..Min(|t|, |done|)] == done[..Min(|t|, |done|)]
    ensures var t := ToInstall(m, slots, false); ToInstall(m, after, false) == t[Min(|t|, |done|)..]
  {
    if m != [] {
      var front, last := m[..|m| - 1], m[|m| - 1];
      var t, t0 := ToInstall(m, slots, false), ToInstall(front, slots, false);
      assert t0 == t[..|t0|];
      assert t0[..Min(|t0|, |done|)] == t[..Min(|t|, |done|)][..Min(|t0|, |done|)] == done[..Min(|t0|, |done|)];
      RestIsLeft(front, slots, after, done);
      if Wanted(slots, last, false) {
        if |t0| < |done| {
          assert t[|t0|] == last == t[..Min(|t|, |done|)][|t0|] == done[|t0|];
        } else {
          assert done == t0[..|done|];
          ToInstallIsIn(front, slots, false, last);
        }
      }
    }
  }

  /** With distinct names, after an install that stopped at k a rerun has exactly the rest to do. */
  lemma RerunResumes(sha: Sha, src: Source, m: seq<Entry>, slots: seq<Slot>, k: nat)
    requires DistinctNames(m) && k <= |ToInstall(m, slots, false)|
    requires AllFetch(sha, src, ToInstall(m, slots, false)[..k])
    ensures ToInstall(m, InstallAll(sha, src, slots, ToInstall(m, slots, false)[..k]), false)
         == ToInstall(m, slots, false)[k..]
  {
    var t := ToInstall(m, slots, false);
    var done := t[..k];
    var after := InstallAll(sha, src, slots, done);
    forall d | d in done ensures d in m {
      ToInstallIsIn(m, slots, false, d);
    }
    forall e | e in m ensures Wanted(after, e, false) <==> Wanted(slots, e, false) && e !in done {
      SettlesThose(sha, src, m, slots, done, e);
    }
    RestIsLeft(m, slots, after, done);
  }

  // ── the code ──

  datatype InstallEnd = AllDone | NoSlots | NoManifest | FetchFailed(at: Entry) | UploadFailed(at: Entry)

  /** blobsToInstall. The slots are first gathered by name, so a later one under the same name wins. */
  method BlobsToInstall(m: seq<Entry>, slots: seq<Slot>, force: bool) returns (out: seq<Entry>)
    ensures out == ToInstall(m, slots, force)
  {
    var have: map<string, Slot> := map[];
    var i := 0;
    while i < |slots|
      invariant i <= |slots|
      invariant forall name :: Have(slots[..i], name) == if name in have then Some(have[name]) else None
    {
      assert slots[..i + 1][..i] == slots[..i];
      have := have[slots[i].name := slots[i]];
      i := i + 1;
    }
    assert slots[..i] == slots;
    out := [];
    i := 0;
    while i < |m|
      invariant i <= |m| && out == ToInstall(m[..i], slots, force)
    {
      assert m[..i + 1][..i] == m[..i];
      var e := m[i];
      i := i + 1;
      if e.size == 0 || e.file == "" || e.name !in have {
        continue;
      }
      var s := have[e.name];
      if force || !EqualFold(s.sha, e.sha) || s.size != e.size {
        out := out + [e];
      }
    }
    assert m[..i] == m;
  }

  method FilterOnly(todo: seq<Entry>, only: set<string>) returns (f: seq<Entry>)
    ensures f == Filter(todo, only)
  {
    f := [];
    var i := 0;
    while i < |todo|
      invariant i <= |todo| && f == Filter(todo[..i], only)
    {
      assert todo[..i + 1][..i] == todo[..i];
      if todo[i].name in only {
        f := f + [todo[i]];
      }
      i := i + 1;
    }
    assert todo[..i] == todo;
  }

  /** A slot's line in the pod's list. */
  function Listed(sha: Sha, name: string, committed: map<string, UploadPod.Image>): Slot {
    if name in committed then
      var image := committed[name];
      Slot(name, |image.bytes|, sha(image.bytes), image.version)
    else Slot(name, 0, "", 0)
  }

  /** What the pod lists: a line for each slot the firmware knows. */
  function List(sha: Sha, names: seq<string>, committed: map<string, UploadPod.Image>): seq<Slot> {
    seq(|names|, i requires 0 <= i < |names| => Listed(sha, names[i], committed))
  }

  /** Committing any image of the data's length and digest shows in the list as installing the data. */
  lemma ListInstalled(sha: Sha, names: seq<string>, was: map<string, UploadPod.Image>, e: Entry, x: Data, data: Data)
    requires |x| == |data| && sha(x) == sha(data)
    ensures List(sha, names, was[e.name := UploadPod.Image(x, e.version)])
         == Installed(sha, List(sha, names, was), e, data)
  {
  }

  lemma ConsoleInstalled(sha: Sha, names: seq<string>, e: Entry, data: Data, was: UploadPod.Wire, now: UploadPod.Wire,
                         res: UploadExchange.UploadEnd)
    requires UploadExchange.SafeUpload(sha, was, UploadSafety.Spec(e.name, data, e.version), res, now)
    requires UploadSafety.NoCommits(was.toPod)
    ensures res.Uploaded? ==> now.commits == was.commits + 1
    ensures now.commits == was.commits || now.commits == was.commits + 1
    ensures List(sha, names, now.pod.committed)
         == if now.commits > was.commits then Installed(sha, List(sha, names, was.pod.committed), e, data)
            else List(sha, names, was.pod.committed)
  {
    var spec := UploadSafety.Spec(e.name, data, e.version);
    if now.commits > was.commits {
      var x: Data :| now.pod.committed == was.pod.committed[spec.target := UploadPod.Image(x, spec.version)]
                     && UploadSafety.SameDigest(sha, x, spec);
      ListInstalled(sha, names, was.pod.committed, e, x, data);
    }
  }

  /** What an upload over the network shows in the list. */
  lemma LanInstalled(sha: Sha, names: seq<string>, e: Entry, data: Data, was: LanUpload.Lan, now: LanUpload.Lan,
                     begin: seq<LanUpload.Ota>, chunks: seq<LanUpload.Chunk>, res: LanUpload.UploadEnd)
    requires LanUpload.Leaves(was, e.name, data, e.version, res, now)
    requires now.sent == was.sent + begin + LanUpload.Lines(chunks) + LanUpload.LastLines(res)
    requires forall i | 0 <= i < |begin| :: begin[i].OtaBegin?
    ensures now.commits == was.commits || now.commits == was.commits + 1
    ensures res.Installed? ==> now.commits == was.commits + 1
    ensures now.commits > was.commits <==> res.Installed? || LanUpload.CommitUnheard(was, now)
    ensures List(sha, names, now.pod.slots)
         == if now.commits > was.commits then Installed(sha, List(sha, names, was.pod.slots), e, data)
            else List(sha, names, was.pod.slots)
  {
    LanUpload.EndsInCommit(was.sent, begin, chunks, res, now.sent);
    ListInstalled(sha, names, was.pod.slots, e, data, data);
  }

  /** ... and that it succeeds when every line is answered. */
  lemma LanSmooth(was: LanUpload.Lan, now: LanUpload.Lan, chunks: nat, res: LanUpload.UploadEnd)
    requires was.fates <= now.fates
    requires !was.broken && !res.EmptyImage? ==> LanUpload.DecidedBy(now.fates, |was.fates|, chunks, res)
    ensures LanUpload.Odd(was.fates) <= LanUpload.Odd(now.fates)
    ensures !was.broken && !res.EmptyImage? && LanUpload.Odd(was.fates) == LanUpload.Odd(now.fates) ==> res.Installed?
  {
    LanUpload.OddGrows(was.fates, now.fates);
    if !was.broken && !res.EmptyImage? && LanUpload.Odd(was.fates) == LanUpload.Odd(now.fates) {
      LanUpload.AnsweredInstalls(was.fates, now.fates, chunks, res);
    }
  }

  /** The ways in: the USB console, and the network API. */
  datatype Way = ByConsole(console: ConsoleUpload.Console) | ByLan(lan: LanUpload.LanBlobs)

  /**
    ready: nothing is on its way that an upload would trip over. undisturbed: the caller has not given up, and no
    write has failed. mishaps: the commands that met anything but a plain answer.
  */
  datatype Standing = Standing(ready: bool, undisturbed: bool, mishaps: nat)

  /** The way in was ready, and nothing has gone wrong since. */
  predicate Smooth(was: Standing, now: Standing) {
    was.ready && now.undisturbed && now.mishaps == was.mishaps
  }

  predicate NoBetter(was: Standing, now: Standing) {
    was.mishaps <= now.mishaps && (now.undisturbed ==> was.undisturbed)
  }

  /** A pod with blob slots, and the way in to it. */
  class BlobTarget {
    const way: Way
    /** The slots the firmware knows. */
    const names: seq<string>

    constructor (way: Way, names: seq<string>)
      ensures this.way == way && this.names == names
    {
      this.way, this.names := way, names;
    }

    function Repr(): set<object> {
      match way
      case ByConsole(c) => {c}
      case ByLan(l) => {l}
    }

    function Hash(): Sha {
      match way
      case ByConsole(c) => c.sha
      case ByLan(l) => l.sha
    }

    function Committed(): map<string, UploadPod.Image>
      reads Repr()
    {
      match way
      case ByConsole(c) => c.w.pod.committed
      case ByLan(l) => l.s.pod.slots
    }

    function Slots(): seq<Slot>
      reads Repr()
    {
      List(Hash(), names, Committed())
    }

    /** On the console no upload-begin, no answer to one and no upload-commit is on its way from before. */
    predicate Valid()
      reads Repr()
    {
      way.ByConsole? ==> UploadSafety.BeginFree(way.console.w) && UploadSafety.NoCommits(way.console.w.toPod)
    }

    function Health(): Standing
      reads Repr()
    {
      match way
      case ByConsole(c) =>
        Standing(!c.late && UploadPod.Calm(c.w) && UploadExchange.Undisturbed(c.w) && c.Knows(),
              UploadExchange.Undisturbed(c.w), c.w.faults)
      case ByLan(l) => Standing(!l.s.broken, true, LanUpload.Odd(l.s.fates))
    }

    /** The commits the pod has carried out. */
    function Commits(): nat
      reads Repr()
    {
      match way
      case ByConsole(c) => c.w.commits
      case ByLan(l) => l.s.commits
    }

    /**
      UploadSigned, over whichever way. committed says whether the pod carried out its commit: always when the
      upload succeeds, and over the network else exactly when the commit's reply was lost or cannot be read.
      The list shows the blob installed exactly then. After a success the way is ready for the next upload.
    */
    method Upload(e: Entry, data: Data, manifest: Data) returns (ok: bool, ghost committed: bool)
      requires Valid()
      modifies Repr()
      ensures ok ==> committed && Valid()
      ensures Commits() == old(Commits()) + if committed then 1 else 0
      ensures way.ByLan? ==> (committed <==> ok || LanUpload.CommitUnheard(old(way.lan.s), way.lan.s))
      ensures Slots() == if committed then Installed(Hash(), old(Slots()), e, data) else old(Slots())
      ensures NoBetter(old(Health()), Health()) && (ok ==> data != [])
      ensures Smooth(old(Health()), Health()) && data != [] ==> ok && Health().ready
    {
      ghost var was := Commits();
      match way {
        case ByConsole(c) =>
          ghost var wire := c.w;
          var rep, res, acts := c.UploadSigned(e.name, data, e.version, manifest);
          ok := res.Uploaded?;
          ConsoleInstalled(c.sha, names, e, data, wire, c.w, res);
        case ByLan(l) =>
          ghost var lan := l.s;
          var sig := if |manifest| == UploadPod.MANIFEST_LEN then Some(Base64Url.Encode(manifest)) else None;
          var res, chunks := l.UploadSigned(e.name, data, e.version, sig);
          ok := res.Installed?;
          ghost var begin := if data == [] || lan.broken then [] else
            [LanUpload.OtaBegin(|data|, l.sha(data), e.name, e.version, sig)];
          LanInstalled(l.sha, names, e, data, lan, l.s, begin, chunks, res);
          LanSmooth(lan, l.s, |chunks|, res);
      }
      committed := Commits() > was;
    }

    /** The loop over the entries to install; manifests: the signed manifests found beside the blobs. */
    method Install(src: Source, todo: seq<Entry>, manifests: Entry -> Data)
      returns (end: InstallEnd, done: seq<Entry>, ghost committed: bool)
      requires Valid()
      modifies Repr()
      ensures Progress(Hash(), src, old(Slots()), todo, end, done, committed, Slots())
      ensures Commits() == old(Commits()) + |done| + if committed then 1 else 0
      ensures Smooth(old(Health()), Health()) && end.UploadFailed? ==> end.at.size == 0
    {
      done, committed := [], false;
      while |done| < |todo|
        invariant Commits() == old(Commits()) + |done|
        invariant NoBetter(old(Health()), Health())
        invariant Smooth(old(Health()), Health()) ==> Health().ready
        invariant Valid() && Sofar(Hash(), src, old(Slots()), todo, done, Slots())
      {
        var e := todo[|done|];
        var data := Fetch(Hash(), src, e);
        if data.Err? {
          StopsAt(Hash(), src, old(Slots()), todo, done, Slots(), false);
          return FetchFailed(e), done, false;
        }
        SofarStep(Hash(), src, old(Slots()), todo, done, Slots());
        StopsAt(Hash(), src, old(Slots()), todo, done, Slots(), false);
        var ok;
        ok, committed := Upload(e, data.value, manifests(e));
        StopsAt(Hash(), src, old(Slots()), todo, done, Slots(), committed);
        if !ok {
          return UploadFailed(e), done, committed;
        }
        done := done + [e];
      }
      StopsAt(Hash(), src, old(Slots()), todo, done, Slots(), false);
      end, committed := AllDone, false;
    }

    /**
      installBlobsList. The returned list is the installed prefix of what was to do, all of it on success.
      The slots hold exactly that prefix, unless the pod carried out the commit of the upload that failed: then
      the one after it too. The pod's commits are those of the list, and that one.
    */
    method InstallBlobsList(src: Source, manifest: Option<seq<Entry>>, lists: bool, force: bool,
                            only: Option<set<string>>,
                            manifests: Entry -> Data)
      returns (end: InstallEnd, done: seq<Entry>, ghost committed: bool)
      requires Valid()
      modifies Repr()
      ensures !lists || manifest.None? ==>
                end == (if !lists then NoSlots else NoManifest) && Slots() == old(Slots()) && done == []
      ensures lists && manifest.Some? ==>
                Progress(Hash(), src, old(Slots()), Todo(manifest.value, old(Slots()), force, only), end, done,
                  committed, Slots())
      ensures Commits() == old(Commits()) + |done| + if committed then 1 else 0
      ensures end.FetchFailed? ==>
                || end.at.file !in src || |src[end.at.file]| != end.at.size
                || !EqualFold(Hash()(src[end.at.file]), end.at.sha)
      ensures only.Some? && only.value != {} ==>
                && (forall d | d in done :: d.name in only.value)
                && (forall i | 0 <= i < |Slots()| && old(Slots())[i].name !in only.value ::
                      Slots()[i] == old(Slots())[i])
      ensures lists && manifest.Some? && end.AllDone? ==>
                forall e | e in ToInstall(manifest.value, old(Slots()), force) ::
                  e in done || (only.Some? && only.value != {} && e.name !in only.value)
      ensures Smooth(old(Health()), Health()) ==> !end.UploadFailed?
    {
      if !lists {
        return NoSlots, [], false;
      }
      if manifest.None? {
        return NoManifest, [], false;
      }
      var todo := BlobsToInstall(manifest.value, Slots(), force);
      if only.Some? && only.value != {} {
        todo := FilterOnly(todo, only.value);
      }
      end, done, committed := Install(src, todo, manifests);
      NamedOnly(Hash(), src, manifest.value, old(Slots()), force, only, end, done, committed, Slots());
    }
  }

  /** What an install limited to some names does, and what every one that is through has done. */
  lemma NamedOnly(sha: Sha, src: Source, m: seq<Entry>, was: seq<Slot>, force: bool, only: Option<set<string>>,
                  end: InstallEnd, done: seq<Entry>, committed: bool, now: seq<Slot>)
    requires Progress(sha, src, was, Todo(m, was, force, only), end, done, committed, now)
    ensures only.Some? && only.value != {} ==>
              && (forall d | d in done :: d.name in only.value)
              && |now| == |was|
              && (forall i | 0 <= i < |now| && was[i].name !in only.value :: now[i] == was[i])
    ensures end.AllDone? ==>
              forall e | e in ToInstall(m, was, force) ::
                e in done || (only.Some? && only.value != {} && e.name !in only.value)
    ensures end.UploadFailed? ==> end.at.size != 0
  {
    var todo := Todo(m, was, force, only);
    forall e ensures e in todo <==>
        e in ToInstall(m, was, force) && (only.Some? && only.value != {} ==> e.name in only.value)
    {
      TodoIff(m, was, force, only, e);
    }
    if end.UploadFailed? {
      ToInstallIff(m, was, force, end.at);
    }
    if only.Some? && only.value != {} {
      var k := |done| + if end.UploadFailed? && committed then 1 else 0;
      var through := todo[..k];
      assert now == InstallAll(sha, src, was, through);
      forall i | 0 <= i < |was| && was[i].name !in only.value ensures now[i] == was[i] {
        forall j | 0 <= j < |through| ensures through[j].name != was[i].name {
          assert through[j] in todo;
        }
        OthersUntouched(sha, src, was, through, i);
      }
      forall d | d in done ensures d.name in only.value {
        assert d in todo;
      }
    }
  }

  /** What an install has to do: the filter applies only when it is not empty. */
  function Todo(m: seq<Entry>, slots: seq<Slot>, force: bool, only: Option<set<string>>): seq<Entry> {
    if only.Some? && only.value != {} then Filter(ToInstall(m, slots, force), only.value)
    else ToInstall(m, slots, force)
  }

  predicate Sofar(sha: Sha, src: Source, was: seq<Slot>, todo: seq<Entry>, done: seq<Entry>, now: seq<Slot>) {
    |done| <= |todo| && done == todo[..|done|] && AllFetch(sha, src, done) && now == InstallAll(sha, src, was, done)
  }

  lemma SofarStep(sha: Sha, src: Source, was: seq<Slot>, todo: seq<Entry>, done: seq<Entry>, now: seq<Slot>)
    requires Sofar(sha, src, was, todo, done, now) && |done| < |todo| && Fetch(sha, src, todo[|done|]).Ok?
    ensures var e := todo[|done|];
            Sofar(sha, src, was, todo, done + [e], Installed(sha, now, e, Fetch(sha, src, e).value))
    ensures todo[..|done| + 1] == done + [todo[|done|]] && todo[..|done|] == done
  {
    var e := todo[|done|];
    assert (done + [e])[..|done|] == done;
  }

  predicate Progress(sha: Sha, src: Source, was: seq<Slot>, todo: seq<Entry>, end: InstallEnd, done: seq<Entry>,
                     committed: bool, now: seq<Slot>) {
    && |done| <= |todo| && done == todo[..|done|] && AllFetch(sha, src, done)
    && match end
       case AllDone => done == todo && now == InstallAll(sha, src, was, todo)
       case FetchFailed(at) =>
         |done| < |todo| && at == todo[|done|] && Fetch(sha, src, at).Err? && now == InstallAll(sha, src, was, done)
       case UploadFailed(at) =>
         && |done| < |todo| && at == todo[|done|] && Fetch(sha, src, at).Ok?
         && now == InstallAll(sha, src, was, todo[..|done| + if committed then 1 else 0])
       case _ => false
  }

  /** Stopping where the install has got to. */
  lemma StopsAt(sha: Sha, src: Source, was: seq<Slot>, todo: seq<Entry>, done: seq<Entry>, now: seq<Slot>,
                committed: bool)
    requires |done| <= |todo| && done == todo[..|done|] && AllFetch(sha, src, done)
    requires committed ==> |done| < |todo| && now == InstallAll(sha, src, was, done + [todo[|done|]])
    requires !committed ==> now == InstallAll(sha, src, was, done)
    ensures !committed && |done| == |todo| ==> Progress(sha, src, was, todo, AllDone, done, committed, now)
    ensures |done| < |todo| && !committed && Fetch(sha, src, todo[|done|]).Err? ==>
              Progress(sha, src, was, todo, FetchFailed(todo[|done|]), done, committed, now)
    ensures |done| < |todo| && Fetch(sha, src, todo[|done|]).Ok? ==>
              Progress(sha, src, was, todo, UploadFailed(todo[|done|]), done, committed, now)
  {
    if |done| < |todo| {
      assert todo[..|done| + 1] == done + [todo[|done|]];
    }
  }

  /**
    The whole story with distinct names: after success nothing is left to do, and after a failure exactly what was not
    installed.
  */
  lemma InstallConverges(sha: Sha, src: Source, m: seq<Entry>, was: seq<Slot>, end: InstallEnd, done: seq<Entry>,
                         committed: bool, now: seq<Slot>)
    requires DistinctNames(m) && Progress(sha, src, was, ToInstall(m, was, false), end, done, committed, now)
    ensures ToInstall(m, now, false)
         == ToInstall(m, was, false)[|done| + if end.UploadFailed? && committed then 1 else 0..]
  {
    var k := |done| + if end.UploadFailed? && committed then 1 else 0;
    var todo := ToInstall(m, was, false);
    assert todo[..|todo|] == todo;
    if end.UploadFailed? && committed {
      assert AllFetch(sha, src, todo[..k]) by {
        forall i | 0 <= i < k ensures Fetch(sha, src, todo[..k][i]).Ok? {
          assert i < |done| ==> todo[..k][i] == done[i];
        }
      }
    }
    RerunResumes(sha, src, m, was, k);
  }

  /**
    An install that fails with everything installed: one blob over the network, all answered but the commit. The
    returned list is empty, and nothing is left to install.
  */
  lemma UnheardInstall(sha: Sha, s: LanUpload.Lan, e: Entry, data: Data) returns (after: LanUpload.Lan)
    requires !s.broken && s.pod.slots == map[] && 0 < |data| <= LanUpload.LAN_BLOB_CHUNK
    requires e.size == |data| && e.sha == sha(data) && e.file != ""
    ensures LanUpload.ReplyTo(sha, VerifiedBy(sha, s, e, data), LanUpload.OtaCommit, LanUpload.ReplyLost)
         == LanUpload.IoError
    ensures after == LanUpload.Exchange(sha, VerifiedBy(sha, s, e, data), LanUpload.OtaCommit, LanUpload.ReplyLost)
    ensures var src := map[e.file := data];
            var was, now := List(sha, [e.name], s.pod.slots), List(sha, [e.name], after.pod.slots);
            && ToInstall([e], was, false) == [e]
            && Progress(sha, src, was, [e], UploadFailed(e), [], true, now)
            && ToInstall([e], now, false) == []
  {
    var verified;
    verified, after := LanUpload.UnheardRun(sha, s, e.name, data, e.version, None);
    var src, was, now := map[e.file := data], List(sha, [e.name], s.pod.slots), List(sha, [e.name], after.pod.slots);
    ListInstalled(sha, [e.name], s.pod.slots, e, data, data);
    assert [e][..0] == [];
    OneToInstall(e, was);
    OneToInstall(e, now);
    assert InstallAll(sha, src, was, [e]) == Installed(sha, InstallAll(sha, src, was, []), e, data);
    StopsAt(sha, src, was, [e], [], now, true);
  }

  /** The session after begin, one chunk and end, all answered. */
  function VerifiedBy(sha: Sha, s: LanUpload.Lan, e: Entry, data: Data): LanUpload.Lan {
    var answered := LanUpload.Answered(false);
    var begun := LanUpload.Exchange(sha, s, LanUpload.OtaBegin(|data|, sha(data), e.name, e.version, None), answered);
    LanUpload.Exchange(sha, LanUpload.Exchange(sha, begun, LanUpload.OtaData(0, Base64Url.Encode(data)), answered),
                       LanUpload.OtaEnd, answered)
  }

  lemma OneToInstall(e: Entry, slots: seq<Slot>)
    ensures ToInstall([e], slots, false) == if Wanted(slots, e, false) then [e] else []
  {
    assert [e][..0] == [];
  }
}
