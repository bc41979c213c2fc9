/** The cgroup resolver: from a pod and a container to a path and its inode, and back from
    a walk over the directory tree to pods and containers. */
module Cgroup {
  import opened Common
  import opened Text

  // ---------- The file system ----------

  datatype Entry = Entry(name: string, node: Node)

  /** Directory entries are listed in the order the directory is read. */
  datatype Node =
    | File(inode: u64)
    | Dir(inode: u64, entries: seq<Entry>)

  type Path = seq<string>

  predicate IsName(name: string) {
    name != "" && name != "." && name != ".." && '/' !in name
  }

  predicate AreNames(path: Path) { forall name | name in path :: IsName(name) }

  ghost predicate WellFormed(node: Node) {
    node.Dir? ==>
      && (forall i | 0 <= i < |node.entries| :: IsName(node.entries[i].name) && WellFormed(node.entries[i].node))
      && (forall i, j | 0 <= i < j < |node.entries| :: node.entries[i].name != node.entries[j].name)
  }

  function FindEntry(entries: seq<Entry>, name: string): (r: Option<Node>)
    ensures r.Some? ==> exists i :: 0 <= i < |entries| && entries[i] == Entry(name, r.value)
  {
    if entries == [] then None
    else if entries[0].name == name then
      assert entries[0] == Entry(name, entries[0].node);
      Some(entries[0].node)
    else
      var r := FindEntry(entries[1..], name);
      assert r.Some? ==> exists i :: 0 <= i < |entries[1..]| && entries[1..][i] == entries[i + 1] == Entry(name, r.value);
      r
  }

  lemma {:induction false} FindEntryAt(entries: seq<Entry>, i: nat)
    requires i < |entries|
    requires forall j, k | 0 <= j < k < |entries| :: entries[j].name != entries[k].name
    ensures FindEntry(entries, entries[i].name) == Some(entries[i].node)
  {
    if i > 0 {
      FindEntryAt(entries[1..], i - 1);
    }
  }

  /** Path resolution by the kernel: `dirs` is the chain of directories walked so far. */
  function Walk(dirs: seq<Node>, path: Path): Option<Node>
    requires dirs != []
    decreases path
  {
    var here := dirs[|dirs| - 1];
    if path == [] then Some(here)
    else if !here.Dir? then None
    else if path[0] == "" || path[0] == "." then Walk(dirs, path[1..])
    else if path[0] == ".." then Walk(if |dirs| > 1 then dirs[..|dirs| - 1] else dirs, path[1..])
    else match FindEntry(here.entries, path[0])
         case None => None
         case Some(node) => Walk(dirs + [node], path[1..])
  }

  /** Descent along proper names. */
  function Lookup(node: Node, path: Path): Option<Node> {
    if path == [] then Some(node)
    else if !node.Dir? then None
    else match FindEntry(node.entries, path[0])
         case None => None
         case Some(child) => Lookup(child, path[1..])
  }

  lemma {:induction false} WalkIsLookup(dirs: seq<Node>, path: Path)
    requires dirs != [] && AreNames(path)
    ensures Walk(dirs, path) == Lookup(dirs[|dirs| - 1], path)
    decreases path
  {
    var here := dirs[|dirs| - 1];
    if path != [] && here.Dir? && FindEntry(here.entries, path[0]).Some? {
      assert IsName(path[0]);
      assert AreNames(path[1..]);
      WalkIsLookup(dirs + [FindEntry(here.entries, path[0]).value], path[1..]);
    } else if path != [] {
      assert IsName(path[0]);
    }
  }

  lemma {:induction false} LookupAppend(node: Node, a: Path, b: Path)
    ensures Lookup(node, a + b) == match Lookup(node, a) case None => None case Some(n) => Lookup(n, b)
    decreases a
  {
    if a == [] {
      assert a + b == b;
    } else if node.Dir? && FindEntry(node.entries, a[0]).Some? {
      LookupAppend(FindEntry(node.entries, a[0]).value, a[1..], b);
      assert (a + b)[1..] == a[1..] + b;
    }
  }

  lemma {:induction false} LookupWellFormed(node: Node, path: Path)
    requires WellFormed(node) && Lookup(node, path).Some?
    ensures WellFormed(Lookup(node, path).value)
    decreases path
  {
    if path != [] {
      LookupWellFormed(FindEntry(node.entries, path[0]).value, path[1..]);
    }
  }

  // ---------- Resolving ----------

  const QOS_CLASSES: seq<string> := ["", "burstable-", "besteffort-"]

  /** The part of a container id after the last "://". */
  function CleanId(id: string): string
    decreases |id|
  {
    match Find(id, "://")
    case None => id
    case Some(i) => CleanId(id[i + 3..])
  }

  function PodSlice(uid: string, qos: string): string {
    if qos == "" then "kubepods-pod" + uid + ".slice"
    else "kubepods-" + TrimEnd(qos, '-') + ".slice/kubepods-" + qos + "pod" + uid + ".slice"
  }

  function Scope(containerId: string): string { "cri-containerd-" + containerId + ".scope" }

  datatype Hit = Hit(inode: u64, podUid: string, containerId: string)

  datatype CgroupResolver = CgroupResolver(cgroupRoot: Path) {

    function KubepodsPath(): Path { cgroupRoot + ["kubepods.slice"] }

    function ContainerPath(uid: string, containerId: string, qos: string): Path {
      KubepodsPath() + Split(PodSlice(uid, qos), '/') + Split(Scope(containerId), '/')
    }

    /** What is at the first of the candidate paths that exists. */
    function FirstFound(fs: Node, uid: string, containerId: string, classes: seq<string>): Option<Node> {
      if classes == [] then None
      else match Walk([fs], ContainerPath(uid, containerId, classes[0]))
           case Some(node) => Some(node)
           case None => FirstFound(fs, uid, containerId, classes[1..])
    }

    function ResolvedNode(fs: Node, podUid: string, containerId: string): Option<Node> {
      FirstFound(fs, ReplaceChar(podUid, '-', '_'), CleanId(containerId), QOS_CLASSES)
    }

    function Resolve(fs: Node, podUid: string, containerId: string): Option<u64> {
      match ResolvedNode(fs, podUid, containerId)
      case Some(node) => Some(node.inode)
      case None => None
    }

    /** None when the kubepods path exists but cannot be read as a directory. */
    method ScanAll(fs: Node) returns (r: Option<seq<Hit>>)
      ensures r == Scanned(fs)
    {
      match Walk([fs], KubepodsPath()) {
        case None => r := Some([]);
        case Some(File(_)) => r := None;
        case Some(dir) =>
          var results := ScanDirectory(KubepodsPath(), dir, []);
          assert [] + Scan(KubepodsPath(), dir) == Scan(KubepodsPath(), dir);
          r := Some(results);
      }
    }

    function Scanned(fs: Node): Option<seq<Hit>> {
      match Walk([fs], KubepodsPath())
      case None => Some([])
      case Some(File(_)) => None
      case Some(dir) => Some(Scan(KubepodsPath(), dir))
    }
  }

  // ---------- Scanning ----------

  function UidFromName(name: string): Option<string> {
    match Find(name, "-pod")
    case None => None
    case Some(start) =>
      if !EndsWith(name, ".slice") then None
      else match StripSuffix(name[start + 4..], ".slice")
           case None => None
           case Some(uid) => Some(ReplaceChar(uid, '_', '-'))
  }

  /** The pod uid of the nearest enclosing pod slice. */
  function ExtractPodUid(path: Path): Option<string> {
    if path == [] then None
    else match UidFromName(path[|path| - 1])
         case Some(uid) => Some(uid)
         case None => ExtractPodUid(path[..|path| - 1])
  }

  /** What the scan reports about the directory at `path`, if anything. */
  function HitAt(path: Path, inode: u64): Option<Hit>
    requires path != []
  {
    var name := path[|path| - 1];
    if !(StartsWith(name, "cri-containerd-") && EndsWith(name, ".scope")) then None else
      var id := match StripPrefix(name, "cri-containerd-")
                case None => ""
                case Some(s) => (match StripSuffix(s, ".scope") case None => "" case Some(id) => id);
      match ExtractPodUid(path)
      case None => None
      case Some(uid) => Some(Hit(inode, uid, id))
  }

  function AsSeq(h: Option<Hit>): seq<Hit> {
    match h
    case Some(hit) => [hit]
    case None => []
  }

  function Scan(path: Path, dir: Node): seq<Hit>
    requires dir.Dir?
    decreases dir, 1
  {
    ScanEntries(path, dir.entries)
  }

  function ScanEntries(path: Path, entries: seq<Entry>): seq<Hit>
    decreases entries, 0
  {
    if entries == [] then [] else
      ScanEntries(path, entries[..|entries| - 1]) + ScanEntry(path, entries[|entries| - 1])
  }

  function ScanEntry(path: Path, entry: Entry): seq<Hit>
    decreases entry, 0
  {
    if entry.node.File? then [] else
      Scan(path + [entry.name], entry.node) + AsSeq(HitAt(path + [entry.name], entry.node.inode))
  }

  method ScanDirectory(path: Path, dir: Node, before: seq<Hit>) returns (results: seq<Hit>)
    requires dir.Dir?
    ensures results == before + Scan(path, dir)
    decreases dir
  {
    results := before;
    for i := 0 to |dir.entries|
      invariant results == before + ScanEntries(path, dir.entries[..i])
    {
      var entry := dir.entries[i];
      ConcatAssociates(before, ScanEntries(path, dir.entries[..i]), ScanEntry(path, entry));
      ScanEntriesNext(path, dir.entries, i, i + 1);
      var here := path + [entry.name];
      if entry.node.Dir? {
        ghost var soFar := results;
        results := ScanDirectory(here, entry.node, results);
        ConcatAssociates(soFar, Scan(here, entry.node), AsSeq(HitAt(here, entry.node.inode)));
      } else {
        continue;
      }
      var hit := HitAt(here, entry.node.inode);
      if hit.Some? {
        results := results + [hit.value];
      }
    }
    assert dir.entries[..|dir.entries|] == dir.entries;
  }

  lemma ScanEntriesNext(path: Path, entries: seq<Entry>, i: nat, n: nat)
    requires i < |entries| && n == i + 1
    ensures ScanEntries(path, entries[..n]) == ScanEntries(path, entries[..i]) + ScanEntry(path, entries[i])
  {
    assert entries[..n][..i] == entries[..i];
  }

  // ---------- The scan reports exactly the scopes in the tree ----------

  /** Below the directory at `path`, the directory at `rel` gives rise to `hit`. */
  ghost predicate Reports(path: Path, dir: Node, rel: Path, hit: Hit) {
    && rel != []
    && (match Lookup(dir, rel)
        case Some(Dir(inode, _)) => HitAt(path + rel, inode) == Some(hit)
        case _ => false)
  }

  lemma InConcat(a: seq<Hit>, b: seq<Hit>, hit: Hit)
    ensures hit in a + b <==> hit in a || hit in b
  {
  }

  lemma {:induction false} ScanEntriesGrow(path: Path, entries: seq<Entry>, m: nat, n: nat)
    requires m <= n <= |entries|
    ensures ScanEntries(path, entries[..m]) <= ScanEntries(path, entries[..n])
    decreases n
  {
    if m < n {
      ScanEntriesGrow(path, entries, m, n - 1);
      ScanEntriesNext(path, entries, n - 1, n);
    }
  }

  lemma InScanEntries(path: Path, entries: seq<Entry>, i: nat, hit: Hit)
    requires i < |entries| && hit in ScanEntry(path, entries[i])
    ensures hit in ScanEntries(path, entries)
  {
    ScanEntriesNext(path, entries, i, i + 1);
    InConcat(ScanEntries(path, entries[..i]), ScanEntry(path, entries[i]), hit);
    ScanEntriesGrow(path, entries, i + 1, |entries|);
    assert entries[..|entries|] == entries;
  }

  lemma {:induction false} FromScanEntry(path: Path, entries: seq<Entry>, n: nat, hit: Hit) returns (i: nat)
    requires n <= |entries| && hit in ScanEntries(path, entries[..n])
    ensures i < n && hit in ScanEntry(path, entries[i])
    decreases n
  {
    ScanEntriesNext(path, entries, n - 1, n);
    i := n - 1;
    if hit !in ScanEntry(path, entries[i]) {
      i := FromScanEntry(path, entries, n - 1, hit);
    }
  }

  lemma InScanEntry(path: Path, entry: Entry, hit: Hit)
    ensures hit in ScanEntry(path, entry) <==>
            && entry.node.Dir?
            && (hit in Scan(path + [entry.name], entry.node)
                || HitAt(path + [entry.name], entry.node.inode) == Some(hit))
  {
  }

  lemma OneEntry(dir: Node, i: nat)
    requires dir.Dir? && WellFormed(dir) && i < |dir.entries|
    ensures Lookup(dir, [dir.entries[i].name]) == Some(dir.entries[i].node)
  {
    FindEntryAt(dir.entries, i);
    assert [dir.entries[i].name][1..] == [];
  }

  lemma {:induction false} ScanReportsOnly(path: Path, dir: Node, hit: Hit) returns (rel: Path)
    requires dir.Dir? && WellFormed(dir) && hit in Scan(path, dir)
    ensures Reports(path, dir, rel, hit)
    decreases dir
  {
    assert dir.entries[..|dir.entries|] == dir.entries;
    var i := FromScanEntry(path, dir.entries, |dir.entries|, hit);
    var entry := dir.entries[i];
    var here := path + [entry.name];
    InScanEntry(path, entry, hit);
    OneEntry(dir, i);
    if hit in Scan(here, entry.node) {
      var rest := ScanReportsOnly(here, entry.node, hit);
      rel := [entry.name] + rest;
      ReportsDeeper(path, dir, entry.name, entry.node, rest, hit);
    } else {
      rel := [entry.name];
    }
  }

  lemma ReportsDeeper(path: Path, dir: Node, name: string, child: Node, rest: Path, hit: Hit)
    requires rest != [] && Lookup(dir, [name]) == Some(child)
    ensures Reports(path, dir, [name] + rest, hit) <==> Reports(path + [name], child, rest, hit)
  {
    LookupAppend(dir, [name], rest);
    ConcatAssociates(path, [name], rest);
  }

  lemma {:induction false} ScanReportsAll(path: Path, dir: Node, rel: Path, hit: Hit)
    requires dir.Dir? && Reports(path, dir, rel, hit)
    ensures hit in Scan(path, dir)
    decreases rel
  {
    var child := FindEntry(dir.entries, rel[0]).value;
    var i :| 0 <= i < |dir.entries| && dir.entries[i] == Entry(rel[0], child);
    assert rel == [rel[0]] + rel[1..];
    assert Lookup(dir, [rel[0]]) == Some(child) by {
      assert [rel[0]][1..] == [];
    }
    if |rel| > 1 {
      ReportsDeeper(path, dir, rel[0], child, rel[1..], hit);
      ScanReportsAll(path + [rel[0]], child, rel[1..], hit);
    }
    InScanEntry(path, dir.entries[i], hit);
    InScanEntries(path, dir.entries, i, hit);
  }

  // ---------- What the names say ----------

  /** `name` is a pod slice's name with `head` before its first "-pod" and `raw` after it. */
  ghost predicate PodSliceParts(name: string, head: string, raw: string) {
    && name == head + "-pod" + raw + ".slice"
    && forall i | 0 <= i < |head| :: !("-pod" <= name[i..])
  }

  /** `name` names a slice of the pod `uid`, with underscores for its dashes. */
  ghost predicate PodSliceNamed(name: string, uid: string) {
    exists head, raw :: PodSliceParts(name, head, raw) && Dashed(raw, uid)
  }

  /** `uid` is `raw` with a dash in place of each underscore. */
  predicate Dashed(raw: string, uid: string) {
    |uid| == |raw| && forall i | 0 <= i < |raw| :: uid[i] == if raw[i] == '_' then '-' else raw[i]
  }

  lemma DashedIsReplaced(raw: string, uid: string)
    ensures Dashed(raw, uid) <==> uid == ReplaceChar(raw, '_', '-')
  {
  }

  lemma UidOfParts(name: string, head: string, raw: string)
    requires PodSliceParts(name, head, raw)
    ensures UidFromName(name) == Some(ReplaceChar(raw, '_', '-'))
  {
    ConcatAssociates(head + "-pod", raw, ".slice");
    assert name[|head|..] == "-pod" + raw + ".slice";
    FindFirst(name, "-pod", |head|);
    assert name[|head| + 4..] == raw + ".slice";
    AffixesStrip(head + "-pod", raw, ".slice");
  }

  lemma PartsOfUid(name: string, uid: string) returns (head: string, raw: string)
    requires UidFromName(name) == Some(uid)
    ensures PodSliceParts(name, head, raw) && uid == ReplaceChar(raw, '_', '-')
  {
    var start := Find(name, "-pod").value;
    var rest := name[start + 4..];
    head, raw := name[..start], rest[..|rest| - 6];
    assert name[start..][..4] == "-pod";
    assert name == head + name[start..][..4] + rest && rest == raw + ".slice";
    ConcatAssociates(head + "-pod", raw, ".slice");
    FoundIsFirst(name, "-pod");
  }

  lemma UidFromNameIff(name: string, uid: string)
    ensures UidFromName(name) == Some(uid) <==> PodSliceNamed(name, uid)
  {
    if UidFromName(name) == Some(uid) {
      var head, raw := PartsOfUid(name, uid);
      DashedIsReplaced(raw, uid);
    }
    if head, raw :| PodSliceParts(name, head, raw) && Dashed(raw, uid) {
      UidOfParts(name, head, raw);
      DashedIsReplaced(raw, uid);
    }
  }

  /** The nearest pod slice on `path`, its last directory included, is one of pod `uid`. */
  ghost predicate NearestPod(path: Path, uid: string) {
    exists i | 0 <= i < |path| ::
      && PodSliceNamed(path[i], uid)
      && forall j, other | i < j < |path| :: !PodSliceNamed(path[j], other)
  }

  lemma {:induction false} ExtractIff(path: Path, uid: string)
    ensures ExtractPodUid(path) == Some(uid) <==> NearestPod(path, uid)
  {
    if path != [] {
      var n := |path| - 1;
      forall other ensures UidFromName(path[n]) == Some(other) <==> PodSliceNamed(path[n], other) {
        UidFromNameIff(path[n], other);
      }
      if UidFromName(path[n]).None? {
        ExtractIff(path[..n], uid);
        LastIsNoPod(path, path[n], uid);
      }
    }
  }

  lemma LastIsNoPod(path: Path, last: string, uid: string)
    requires path != [] && path[|path| - 1] == last && forall other :: !PodSliceNamed(last, other)
    ensures NearestPod(path, uid) <==> NearestPod(path[..|path| - 1], uid)
  {
    var n := |path| - 1;
    var prefix := path[..n];
    if i :| 0 <= i < n && PodSliceNamed(prefix[i], uid)
            && forall j, other | i < j < n :: !PodSliceNamed(prefix[j], other)
    {
      assert PodSliceNamed(path[i], uid);
      forall j, other | i < j < |path| ensures !PodSliceNamed(path[j], other) {
        assert j < n ==> path[j] == prefix[j];
      }
    }
    if i :| 0 <= i < |path| && PodSliceNamed(path[i], uid)
            && forall j, other | i < j < |path| :: !PodSliceNamed(path[j], other)
    {
      assert prefix[i] == path[i];
      forall j, other | i < j < n ensures !PodSliceNamed(prefix[j], other) {
        assert path[j] == prefix[j];
      }
    }
  }

  lemma ScopeNameIff(name: string, id: string)
    ensures name == "cri-containerd-" + id + ".scope" <==>
            && StartsWith(name, "cri-containerd-") && EndsWith(name, ".scope")
            && StripPrefix(name, "cri-containerd-").Some?
            && StripSuffix(StripPrefix(name, "cri-containerd-").value, ".scope") == Some(id)
  {
    if name == "cri-containerd-" + id + ".scope" {
      AffixesStrip("cri-containerd-", id, ".scope");
    }
    if StripPrefix(name, "cri-containerd-").Some?
       && StripSuffix(StripPrefix(name, "cri-containerd-").value, ".scope") == Some(id)
    {
      assert name == "cri-containerd-" + name[15..];
      assert name[15..] == id + ".scope";
      ConcatAssociates("cri-containerd-", id, ".scope");
    }
  }

  /** A name with both affixes is long enough to hold them side by side. */
  lemma ScopeAffixesApart(name: string)
    requires StartsWith(name, "cri-containerd-") && EndsWith(name, ".scope")
    ensures EndsWith(name[15..], ".scope")
  {
    var prefix := "cri-containerd-";
    assert forall k | 0 <= k < 15 :: name[k] == prefix[k] != '.';
    assert name[|name| - 6] == name[|name| - 6..][0] == '.';
    assert name[15..][|name| - 21..] == name[|name| - 6..];
  }

  lemma HitIff(path: Path, inode: u64, hit: Hit)
    requires path != []
    ensures HitAt(path, inode) == Some(hit) <==>
            && hit.inode == inode
            && path[|path| - 1] == "cri-containerd-" + hit.containerId + ".scope"
            && NearestPod(path, hit.podUid)
  {
    var name := path[|path| - 1];
    ScopeNameIff(name, hit.containerId);
    if StartsWith(name, "cri-containerd-") && EndsWith(name, ".scope") {
      ScopeAffixesApart(name);
    }
    ExtractIff(path, hit.podUid);
  }

  /** Below the directory at `path`, the directory at `rel` carries the hit's inode, has the
      name of the hit's container scope, and the nearest pod slice around it is the hit's. */
  ghost predicate ScopeAt(path: Path, dir: Node, rel: Path, hit: Hit) {
    && rel != [] && rel[|rel| - 1] == "cri-containerd-" + hit.containerId + ".scope"
    && NearestPod(path + rel, hit.podUid)
    && Lookup(dir, rel).Some? && Lookup(dir, rel).value.Dir? && Lookup(dir, rel).value.inode == hit.inode
  }

  lemma ReportsIffScope(path: Path, dir: Node, rel: Path, hit: Hit)
    ensures Reports(path, dir, rel, hit) <==> ScopeAt(path, dir, rel, hit)
  {
    if rel != [] && Lookup(dir, rel).Some? {
      assert (path + rel)[|path + rel| - 1] == rel[|rel| - 1];
      HitIff(path + rel, Lookup(dir, rel).value.inode, hit);
    }
  }

  /** A hit is reported if and only if some directory of the tree has a container scope's
      name and lies in a pod slice, and carries that inode, pod and container. */
  lemma ScanIsExact(path: Path, dir: Node, hit: Hit)
    requires dir.Dir? && WellFormed(dir)
    ensures hit in Scan(path, dir) <==> exists rel :: ScopeAt(path, dir, rel, hit)
  {
    if hit in Scan(path, dir) {
      var rel := ScanReportsOnly(path, dir, hit);
      ReportsIffScope(path, dir, rel, hit);
    }
    if rel :| ScopeAt(path, dir, rel, hit) {
      ReportsIffScope(path, dir, rel, hit);
      ScanReportsAll(path, dir, rel, hit);
    }
  }
}
