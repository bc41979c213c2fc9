/** The path printer and the path scanner of the cgroup resolver agree: whatever `Resolve`
    finds at a directory, the recursive scan reports with the pod and container it was
    asked for. */
module CgroupRoundTrip {
  import opened Common
  import opened Text
  import opened Cgroup

  /** What precedes "-pod" in the pod slice's own directory name. */
  function LeafHead(qos: string): string {
    if qos == "" then "kubepods" else "kubepods-" + TrimEnd(qos, '-')
  }

  function Leaf(uid: string, qos: string): string { LeafHead(qos) + "-pod" + uid + ".slice" }

  function Parts(uid: string, qos: string): Path {
    if qos == "" then [Leaf(uid, qos)] else [LeafHead(qos) + ".slice", Leaf(uid, qos)]
  }

  lemma LongNames(name: string)
    requires |name| > 2 && '/' !in name
    ensures IsName(name)
  {
  }

  lemma TrimmedClasses()
    ensures TrimEnd("burstable-", '-') == "burstable" && TrimEnd("besteffort-", '-') == "besteffort"
  {
    assert "burstable-"[..9] == "burstable" && "besteffort-"[..10] == "besteffort";
  }

  lemma JoinTwo(a: string, b: string)
    ensures Join([a, b], '/') == a + "/" + b
  {
    assert [a, b][1..] == [b];
  }

  lemma Regroup(a: string, b: string, c: string, d: string)
    ensures a + (b + c + d) == a + b + c + d
  {
  }

  lemma PodSliceText(uid: string, qos: string)
    requires qos in QOS_CLASSES
    ensures PodSlice(uid, qos) == Join(Parts(uid, qos), '/')
  {
    if qos == "" {
      assert "kubepods-pod" == "kubepods" + "-pod";
    } else {
      QosSliceText(uid, qos);
    }
  }

  lemma Literals()
    ensures ".slice/kubepods-" == ".slice" + "/" + "kubepods-" && "-pod" == "-" + "pod"
    ensures "burstable-" == "burstable" + "-" && "besteffort-" == "besteffort" + "-"
  {
  }

  lemma RegroupHead(k: string, t: string, s: string, z: string, d: string, p: string)
    ensures k + t + (s + z + k) + (t + d) + p == (k + t) + s + z + ((k + t) + (d + p))
  {
  }

  /** The text before the uid, as the path builder and as the path parts spell it. */
  lemma QosHeadText(qos: string)
    requires qos == "burstable-" || qos == "besteffort-"
    ensures "kubepods-" + TrimEnd(qos, '-') + ".slice/kubepods-" + qos + "pod"
            == LeafHead(qos) + ".slice" + "/" + (LeafHead(qos) + "-pod")
  {
    TrimmedClasses();
    Literals();
    RegroupHead("kubepods-", TrimEnd(qos, '-'), ".slice", "/", "-", "pod");
  }

  lemma QosSliceText(uid: string, qos: string)
    requires qos == "burstable-" || qos == "besteffort-"
    ensures PodSlice(uid, qos) == Join(Parts(uid, qos), '/')
  {
    var text := "kubepods-" + TrimEnd(qos, '-') + ".slice/kubepods-" + qos + "pod";
    assert PodSlice(uid, qos) == text + uid + ".slice";
    QosHeadText(qos);
    Flatten(LeafHead(qos) + ".slice", LeafHead(qos) + "-pod", uid);
  }

  lemma Flatten(mid: string, head: string, uid: string)
    ensures mid + "/" + head + uid + ".slice" == Join([mid, head + uid + ".slice"], '/')
  {
    JoinTwo(mid, head + uid + ".slice");
    Regroup(mid + "/", head, uid, ".slice");
  }

  lemma HeadIsLong(qos: string)
    requires qos in QOS_CLASSES
    ensures |LeafHead(qos)| > 2 && '/' !in LeafHead(qos)
  {
    TrimmedClasses();
  }

  lemma PartsAreNames(uid: string, qos: string)
    requires qos in QOS_CLASSES && '/' !in uid
    ensures AreNames(Parts(uid, qos)) && forall p | p in Parts(uid, qos) :: '/' !in p
  {
    HeadIsLong(qos);
    LongNames(Leaf(uid, qos));
    LongNames(LeafHead(qos) + ".slice");
  }

  /** No "-pod" starts inside `head`. */
  predicate NoPod(head: string) {
    forall i | 0 <= i < |head| :: head[i] == '-' ==> i + 1 < |head| && head[i + 1] != 'p'
  }

  lemma HeadsHaveNoPod(qos: string)
    requires qos in QOS_CLASSES
    ensures NoPod(LeafHead(qos))
  {
    TrimmedClasses();
  }

  lemma HeadHasNoPodAt(head: string, rest: string, i: nat)
    requires NoPod(head) && i < |head|
    ensures !("-pod" <= (head + "-pod" + rest)[i..])
  {
    var s := head + "-pod" + rest;
    assert s[i..][0] == s[i] == head[i];
    if head[i] == '-' {
      assert s[i..][1] == s[i + 1] == head[i + 1];
    }
  }

  lemma UidAfterHead(head: string, uid: string)
    requires NoPod(head)
    ensures UidFromName(head + "-pod" + uid + ".slice") == Some(ReplaceChar(uid, '_', '-'))
  {
    var name := head + "-pod" + uid + ".slice";
    ConcatAssociates(head + "-pod", uid, ".slice");
    forall i | 0 <= i < |head| ensures !("-pod" <= name[i..]) {
      HeadHasNoPodAt(head, uid + ".slice", i);
    }
    UidOfParts(name, head, uid);
  }

  lemma LeafUid(uid: string, qos: string)
    requires qos in QOS_CLASSES
    ensures UidFromName(Leaf(uid, qos)) == Some(ReplaceChar(uid, '_', '-'))
  {
    HeadsHaveNoPod(qos);
    UidAfterHead(LeafHead(qos), uid);
  }

  lemma ScopeHasNoUid(id: string)
    ensures UidFromName(Scope(id)) == None
  {
    var name := Scope(id);
    assert name[|name| - 6..] == ".scope";
    assert ".scope"[2] != ".slice"[2];
  }

  lemma ScopeStrips(id: string)
    ensures StartsWith(Scope(id), "cri-containerd-") && EndsWith(Scope(id), ".scope")
    ensures StripPrefix(Scope(id), "cri-containerd-") == Some(id + ".scope")
    ensures StripSuffix(id + ".scope", ".scope") == Some(id)
  {
    AffixesStrip("cri-containerd-", id, ".scope");
  }

  lemma ScopeHit(path: Path, uid: string, qos: string, id: string, inode: u64)
    requires qos in QOS_CLASSES
    requires path != [] && path[|path| - 1] == Leaf(uid, qos)
    ensures HitAt(path + [Scope(id)], inode) == Some(Hit(inode, ReplaceChar(uid, '_', '-'), id))
  {
    var full := path + [Scope(id)];
    assert full[..|full| - 1] == path && full[|full| - 1] == Scope(id);
    ScopeHasNoUid(id);
    LeafUid(uid, qos);
    assert ExtractPodUid(full) == ExtractPodUid(path) == Some(ReplaceChar(uid, '_', '-'));
    ScopeStrips(id);
  }

  lemma {:induction false} FoundInClass(r: CgroupResolver, fs: Node, uid: string, id: string, classes: seq<string>)
    returns (qos: string)
    requires r.FirstFound(fs, uid, id, classes).Some?
    ensures qos in classes && Walk([fs], r.ContainerPath(uid, id, qos)) == r.FirstFound(fs, uid, id, classes)
  {
    qos := classes[0];
    if Walk([fs], r.ContainerPath(uid, id, qos)).None? {
      qos := FoundInClass(r, fs, uid, id, classes[1..]);
    }
  }

  lemma ContainerPathParts(r: CgroupResolver, uid: string, id: string, qos: string)
    requires qos in QOS_CLASSES && '/' !in uid && '/' !in id && AreNames(r.cgroupRoot)
    ensures r.ContainerPath(uid, id, qos) == r.KubepodsPath() + (Parts(uid, qos) + [Scope(id)])
    ensures AreNames(r.KubepodsPath()) && AreNames(r.ContainerPath(uid, id, qos))
  {
    PartsAreNames(uid, qos);
    PodSliceText(uid, qos);
    SplitJoin(Parts(uid, qos), '/');
    LongNames(Scope(id));
    LongNames("kubepods.slice");
    SplitNone(Scope(id), '/');
    ConcatAssociates(r.KubepodsPath(), Parts(uid, qos), [Scope(id)]);
  }

  /** The candidate paths are all free of the special meaning a slash would have. */
  predicate PlainIds(podUid: string, containerId: string) { '/' !in podUid && '/' !in CleanId(containerId) }

  /** On any readable tree: what `Resolve` finds at a directory, the scan reports with the same
      inode and container, and with the uid it was asked for up to underscores. */
  lemma ScanFindsResolved(r: CgroupResolver, fs: Node, podUid: string, containerId: string)
    requires WellFormed(fs) && AreNames(r.cgroupRoot) && PlainIds(podUid, containerId)
    requires r.ResolvedNode(fs, podUid, containerId).Some? && r.ResolvedNode(fs, podUid, containerId).value.Dir?
    ensures r.Resolve(fs, podUid, containerId).Some? && r.Scanned(fs).Some?
    ensures Hit(r.Resolve(fs, podUid, containerId).value, ReplaceChar(podUid, '_', '-'), CleanId(containerId))
            in r.Scanned(fs).value
  {
    var uid, id := ReplaceChar(podUid, '-', '_'), CleanId(containerId);
    var node := r.ResolvedNode(fs, podUid, containerId).value;
    var qos := FoundInClass(r, fs, uid, id, QOS_CLASSES);
    var rel := Parts(uid, qos) + [Scope(id)];
    ContainerPathParts(r, uid, id, qos);
    WalkIsLookup([fs], r.KubepodsPath());
    WalkIsLookup([fs], r.ContainerPath(uid, id, qos));
    LookupAppend(fs, r.KubepodsPath(), rel);
    var dir := Lookup(fs, r.KubepodsPath()).value;
    LookupWellFormed(fs, r.KubepodsPath());

    ScopeHit(r.KubepodsPath() + Parts(uid, qos), uid, qos, id, node.inode);
    ConcatAssociates(r.KubepodsPath(), Parts(uid, qos), [Scope(id)]);
    UnderscoreRoundTrip(podUid);
    var hit := Hit(node.inode, ReplaceChar(podUid, '_', '-'), id);
    assert Reports(r.KubepodsPath(), dir, rel, hit);
    ScanReportsAll(r.KubepodsPath(), dir, rel, hit);
  }

  lemma UnderscoreRoundTrip(uid: string)
    ensures ReplaceChar(ReplaceChar(uid, '-', '_'), '_', '-') == ReplaceChar(uid, '_', '-')
  {
  }

  /** The scan gives back the very uid that was resolved exactly when it has no underscore. */
  lemma UidSurvivesIff(podUid: string)
    ensures ReplaceChar(ReplaceChar(podUid, '-', '_'), '_', '-') == podUid <==> '_' !in podUid
  {
    var back := ReplaceChar(podUid, '_', '-');
    UnderscoreRoundTrip(podUid);
    if '_' in podUid {
      var i :| 0 <= i < |podUid| && podUid[i] == '_';
      assert back[i] == '-';
    } else {
      assert forall i | 0 <= i < |podUid| :: back[i] == podUid[i];
    }
  }

  lemma SuffixOfSuffix(s: string, k: nat, t: string)
    requires k <= |s| && EndsWith(s[k..], t)
    ensures EndsWith(s, t)
  {
    assert s[k..][|s| - k - |t|..] == s[|s| - |t|..];
  }

  /** The cleaned id has no scheme left, and is a suffix of the id it came from. */
  lemma {:induction false} CleanIdStripsSchemes(id: string)
    ensures Find(CleanId(id), "://") == None
    ensures EndsWith(id, CleanId(id))
    decreases |id|
  {
    match Find(id, "://")
    case None =>
    case Some(i) =>
      CleanIdStripsSchemes(id[i + 3..]);
      SuffixOfSuffix(id, i + 3, CleanId(id[i + 3..]));
  }

  /** "://" starts nowhere in `s`. */
  predicate NoScheme(s: string) { forall i | 0 <= i <= |s| :: !("://" <= s[i..]) }

  /** `t` is all of `s`, or what follows one of its "://". */
  predicate LastPart(s: string, t: string) { NoScheme(t) && (s == t || EndsWith(s, "://" + t)) }

  lemma {:induction false} CleanIdIsLastPart(s: string)
    ensures LastPart(s, CleanId(s))
    decreases |s|
  {
    match Find(s, "://")
    case None => NotFoundIsAbsent(s, "://");
    case Some(i) =>
      var rest := s[i + 3..];
      var t := CleanId(rest);
      CleanIdIsLastPart(rest);
      if rest == t {
        assert s[i..][..3] == "://";
        assert s[|s| - |t| - 3..] == s[i..][..3] + t;
      } else {
        SuffixOfSuffix(s, i + 3, "://" + t);
      }
  }

  lemma SchemeBefore(s: string, t: string)
    requires EndsWith(s, "://" + t)
    ensures var n := |s| - |t|; n >= 3 && s[n - 3] == ':' && s[n - 2] == '/' && s[n - 1] == '/' && s[n..] == t
  {
    var u := "://" + t;
    var n := |s| - |t|;
    assert s[n - 3..] == u;
    assert s[n - 3..][0] == u[0] && s[n - 3..][1] == u[1] && s[n - 3..][2] == u[2];
    assert s[n..] == u[3..] == t;
  }

  lemma LongSuffixHasScheme(s: string, t: string, longer: string)
    requires EndsWith(s, "://" + t) && EndsWith(s, longer)
    ensures |longer| >= |t| + 3 ==> !NoScheme(longer)
  {
    SchemeBefore(s, t);
    if |longer| >= |t| + 3 {
      var i := |longer| - |t| - 3;
      assert longer == s[|s| - |longer|..];
      assert "://" <= longer[i..];
    }
  }

  lemma SchemesDoNotOverlap(s: string, t: string, longer: string)
    requires EndsWith(s, "://" + t) && EndsWith(s, "://" + longer)
    ensures |longer| != |t| + 1 && |longer| != |t| + 2
  {
    SchemeBefore(s, t);
    SchemeBefore(s, longer);
  }

  lemma NoLongerLastPart(s: string, t: string, longer: string)
    requires LastPart(s, t) && LastPart(s, longer)
    ensures |longer| <= |t|
  {
    if s != t {
      if s == longer {
        LongSuffixHasScheme(s, t, s);
      } else {
        SchemeBefore(s, longer);
        LongSuffixHasScheme(s, t, longer);
        SchemesDoNotOverlap(s, t, longer);
      }
    }
  }

  lemma LastPartIsSuffix(s: string, t: string)
    requires LastPart(s, t)
    ensures |t| <= |s| && s[|s| - |t|..] == t
  {
    if s != t {
      SchemeBefore(s, t);
    }
  }

  lemma OneLastPart(s: string, t: string, u: string)
    requires LastPart(s, t) && LastPart(s, u)
    ensures t == u
  {
    NoLongerLastPart(s, t, u);
    NoLongerLastPart(s, u, t);
    LastPartIsSuffix(s, t);
    LastPartIsSuffix(s, u);
  }

  /** Cleaning an id gives the part after the last "://", or the whole of an id without one,
      and nothing else. */
  lemma CleanIdIff(s: string, t: string)
    ensures CleanId(s) == t <==> LastPart(s, t)
  {
    CleanIdIsLastPart(s);
    if LastPart(s, t) {
      OneLastPart(s, t, CleanId(s));
    }
  }

  /** What a container runtime reports, its name and the container's id, is cut to the id. */
  lemma RuntimeIsDropped(runtime: string, id: string)
    requires NoScheme(id)
    ensures CleanId(runtime + "://" + id) == id
  {
    var s := runtime + "://" + id;
    ConcatAssociates(runtime, "://", id);
    assert s[|runtime|..] == "://" + id;
    CleanIdIff(s, id);
  }

  // ---------- The whole scan ----------

  /** Scanning everything: an error exactly when the kubepods path leads to something that is no
      directory, nothing when it leads nowhere, and otherwise exactly the scopes below it. */
  lemma ScanAllIsExact(r: CgroupResolver, fs: Node, hit: Hit)
    requires WellFormed(fs) && AreNames(r.cgroupRoot)
    ensures match Cgroup.Lookup(fs, r.cgroupRoot + ["kubepods.slice"])
            case None => r.Scanned(fs) == Some([])
            case Some(File(_)) => r.Scanned(fs) == None
            case Some(dir) =>
              && r.Scanned(fs).Some?
              && (hit in r.Scanned(fs).value <==> exists rel :: ScopeAt(r.cgroupRoot + ["kubepods.slice"], dir, rel, hit))
  {
    LongNames("kubepods.slice");
    WalkIsLookup([fs], r.KubepodsPath());
    match Cgroup.Lookup(fs, r.KubepodsPath())
    case None =>
    case Some(File(_)) =>
    case Some(dir) =>
      LookupWellFormed(fs, r.KubepodsPath());
      ScanIsExact(r.KubepodsPath(), dir, hit);
  }

  // ---------- The paths that are tried ----------

  /** `normal` is `uid` with an underscore in place of each dash. */
  predicate Underscored(uid: string, normal: string) {
    |normal| == |uid| && forall i | 0 <= i < |uid| :: normal[i] == if uid[i] == '-' then '_' else uid[i]
  }

  lemma PartsText(uid: string)
    ensures Parts(uid, "") == ["kubepods-pod" + uid + ".slice"]
    ensures Parts(uid, "burstable-") == ["kubepods-burstable.slice", "kubepods-burstable-pod" + uid + ".slice"]
    ensures Parts(uid, "besteffort-") == ["kubepods-besteffort.slice", "kubepods-besteffort-pod" + uid + ".slice"]
  {
    TrimmedClasses();
    assert "kubepods" + "-pod" == "kubepods-pod";
    assert "kubepods-" + "burstable" == "kubepods-burstable" && "kubepods-" + "besteffort" == "kubepods-besteffort";
    assert "kubepods-burstable" + "-pod" == "kubepods-burstable-pod";
    assert "kubepods-besteffort" + "-pod" == "kubepods-besteffort-pod";
    assert "kubepods-burstable" + ".slice" == "kubepods-burstable.slice";
    assert "kubepods-besteffort" + ".slice" == "kubepods-besteffort.slice";
  }

  /** The directory or file at `slices` under the kubepods directory, and the scope in it. */
  function At(r: CgroupResolver, fs: Node, slices: Path, id: string): Option<Node> {
    Cgroup.Lookup(fs, r.cgroupRoot + ["kubepods.slice"] + (slices + ["cri-containerd-" + id + ".scope"]))
  }

  lemma ClassPath(r: CgroupResolver, fs: Node, uid: string, id: string, qos: string)
    requires qos in QOS_CLASSES && '/' !in uid && '/' !in id && AreNames(r.cgroupRoot)
    ensures Walk([fs], r.ContainerPath(uid, id, qos)) == At(r, fs, Parts(uid, qos), id)
  {
    ContainerPathParts(r, uid, id, qos);
    WalkIsLookup([fs], r.ContainerPath(uid, id, qos));
  }

  function OrElse(first: Option<Node>, second: Option<Node>): Option<Node> { if first.Some? then first else second }

  lemma ThreeClasses(r: CgroupResolver, fs: Node, uid: string, id: string)
    ensures r.FirstFound(fs, uid, id, QOS_CLASSES) ==
            OrElse(Walk([fs], r.ContainerPath(uid, id, "")),
                   OrElse(Walk([fs], r.ContainerPath(uid, id, "burstable-")),
                          Walk([fs], r.ContainerPath(uid, id, "besteffort-"))))
  {
    assert QOS_CLASSES[1..] == ["burstable-", "besteffort-"];
    assert ["burstable-", "besteffort-"][1..] == ["besteffort-"];
    assert r.FirstFound(fs, uid, id, []) == None;
    assert ["besteffort-"][1..] == [];
    assert r.FirstFound(fs, uid, id, ["besteffort-"]) == Walk([fs], r.ContainerPath(uid, id, "besteffort-"));
  }

  /** Resolving a container gives the inode at the first of three paths that exists: the
      guaranteed, the burstable and the best-effort layout, spelled out. */
  lemma ResolveTriesThreePaths(r: CgroupResolver, fs: Node, podUid: string, containerId: string, uid: string, id: string)
    requires AreNames(r.cgroupRoot) && '/' !in podUid && '/' !in id
    requires Underscored(podUid, uid) && LastPart(containerId, id)
    ensures var found :=
              OrElse(At(r, fs, ["kubepods-pod" + uid + ".slice"], id),
                     OrElse(At(r, fs, ["kubepods-burstable.slice", "kubepods-burstable-pod" + uid + ".slice"], id),
                            At(r, fs, ["kubepods-besteffort.slice", "kubepods-besteffort-pod" + uid + ".slice"], id)));
            r.Resolve(fs, podUid, containerId) == match found case None => None case Some(node) => Some(node.inode)
  {
    assert uid == ReplaceChar(podUid, '-', '_');
    CleanIdIff(containerId, id);
    ThreeClasses(r, fs, uid, id);
    PartsText(uid);
    ClassPath(r, fs, uid, id, "");
    ClassPath(r, fs, uid, id, "burstable-");
    ClassPath(r, fs, uid, id, "besteffort-");
  }
}
