/** `verify_material`: the online keys and certificates of Control and the Relays, checked
    against one database snapshot. openssl and JSON decoding are functions of the bytes they
    are given; everything read comes from directory trees. */
module Material {
  import opened Octets
  import opened Records
  import Publish
  import Texts

  type Path = seq<string>

  /** A directory tree. `strange` entries are symlinks, special files, files with several
      links and files that are not private. */
  datatype Tree = Tree(files: map<Path, Bytes>, dirs: set<Path>, strange: set<Path>)

  const LIMIT := 4 * 1024 * 1024

  /** `read_private`. */
  function Read(t: Tree, p: Path, maximum: nat): Option<Bytes> {
    if p in t.files && p !in t.strange && |t.files[p]| <= maximum then Some(t.files[p]) else None
  }

  predicate Exists(t: Tree, p: Path) {
    p in t.files || p in t.dirs || p in t.strange
  }

  // ---------- The snapshot ----------

  datatype Mesh = Mesh(id: string, lifecycle: string)
  datatype Authority = Authority(id: string, mesh: string, lifecycle: string, publicKey: string, certificate: Bytes)
  datatype Host = Host(id: string, certificateSha256: Digest)
  datatype Assignment = Assignment(host: string, mesh: string, desired: string, state: string,
                                   revision: int, appliedRevision: Option<int>, publicKey: string)

  /** `compatible`: one installation row of this wire version and the exact migration chain. */
  datatype Snapshot = Snapshot(compatible: bool, meshes: seq<Mesh>, authorities: seq<Authority>,
                               hosts: seq<Host>, assignments: seq<Assignment>)

  /** `{row["id"]: row for row in rows}`: a later row replaces an earlier one. */
  function HostsById(rows: seq<Host>): map<string, Host> {
    if rows == [] then map[] else HostsById(rows[..|rows| - 1])[rows[|rows| - 1].id := rows[|rows| - 1]]
  }

  function AuthoritiesById(rows: seq<Authority>): (m: map<string, Authority>)
    ensures forall id :: id in m ==> m[id].id == id
  {
    if rows == [] then map[] else AuthoritiesById(rows[..|rows| - 1])[rows[|rows| - 1].id := rows[|rows| - 1]]
  }

  // ---------- Foreign decoding ----------

  datatype Issuer = Issuer(authorityId: string, mesh: string, root: string, certificate: Bytes,
                           authorityKey: Bytes, directoryKey: Bytes, serviceKey: Bytes, auditKey: Bytes)

  datatype Bundle = Bundle(recovery: Bytes, issuer: Issuer, additional: seq<Issuer>)

  function Issuers(b: Bundle): seq<Issuer> {
    [b.issuer] + b.additional
  }

  datatype Tools = Tools(
    certificatePublic: Bytes -> Option<Bytes>,
    keyPublic: Bytes -> Option<Bytes>,
    certificateDigest: Bytes -> Option<Digest>,
    ed25519: Bytes -> Option<string>,
    x25519: Bytes -> Option<string>,
    bundle: Bytes -> Option<Bundle>)

  /** `public_key`. */
  function PublicKey(derive: Bytes -> Option<string>, seed: Bytes): Option<string> {
    if |seed| == 32 then derive(seed) else None
  }

  function Hex(b: Bytes): string {
    if b == [] then "" else [Texts.HexDigit(b[0] as nat / 16), Texts.HexDigit(b[0] as nat % 16)] + Hex(b[1..])
  }

  // ---------- What acceptance means ----------

  predicate TlsPair(tools: Tools, t: Tree) {
    && Read(t, ["tls.pem"], LIMIT).Some? && Read(t, ["tls.key"], LIMIT).Some?
    && tools.certificatePublic(Read(t, ["tls.pem"], LIMIT).value).Some?
    && tools.certificatePublic(Read(t, ["tls.pem"], LIMIT).value) == tools.keyPublic(Read(t, ["tls.key"], LIMIT).value)
  }

  predicate HostOk(tools: Tools, t: Tree, host: Host) {
    && TlsPair(tools, t)
    && tools.certificateDigest(Read(t, ["tls.pem"], LIMIT).value) == Some(host.certificateSha256)
  }

  function BundleOf(tools: Tools, control: Tree, mesh: string): Option<Bundle> {
    var text := Read(control, ["meshes", mesh, "issuer.json"], 65536);
    if text.Some? then tools.bundle(text.value) else None
  }

  predicate IssuerOk(tools: Tools, authorities: map<string, Authority>, mesh: string, root: string, issuer: Issuer) {
    && issuer.authorityId in authorities
    && issuer.mesh == mesh && authorities[issuer.authorityId].mesh == mesh && issuer.root == root
    && PublicKey(tools.ed25519, issuer.authorityKey) == Some(authorities[issuer.authorityId].publicKey)
    && issuer.certificate == authorities[issuer.authorityId].certificate
    && PublicKey(tools.ed25519, issuer.directoryKey).Some?
    && PublicKey(tools.ed25519, issuer.serviceKey).Some?
    && PublicKey(tools.x25519, issuer.auditKey).Some?
  }

  /** Issuer bundle, recovery package, root key and every signing key of one active mesh. */
  predicate MeshOk(tools: Tools, authorities: map<string, Authority>, control: Tree, mesh: string) {
    var bundle := BundleOf(tools, control, mesh);
    && bundle.Some?
    && Read(control, ["recovery", mesh + ".recovery"], LIMIT) == Some(bundle.value.recovery)
    && Texts.IsDigest(bundle.value.issuer.root)
    && forall i :: 0 <= i < |Issuers(bundle.value)| ==>
         IssuerOk(tools, authorities, mesh, bundle.value.issuer.root, Issuers(bundle.value)[i])
  }

  function ActiveMeshes(meshes: seq<Mesh>): set<string> {
    set i | 0 <= i < |meshes| && meshes[i].lifecycle == "active" :: meshes[i].id
  }

  function RootOf(tools: Tools, control: Tree, mesh: string): string {
    if BundleOf(tools, control, mesh).Some? then BundleOf(tools, control, mesh).value.issuer.root else ""
  }

  function Roots(tools: Tools, control: Tree, meshes: seq<Mesh>): map<string, string> {
    map mesh | mesh in ActiveMeshes(meshes) :: RootOf(tools, control, mesh)
  }

  function CoveredBy(tools: Tools, control: Tree, mesh: string): set<string> {
    if BundleOf(tools, control, mesh).None? then {}
    else
      var issuers := Issuers(BundleOf(tools, control, mesh).value);
      set i | 0 <= i < |issuers| :: issuers[i].authorityId
  }

  function Covered(tools: Tools, control: Tree, meshes: seq<Mesh>): set<string> {
    set mesh, id | mesh in ActiveMeshes(meshes) && id in CoveredBy(tools, control, mesh) :: id
  }

  predicate Current(lifecycle: string) {
    lifecycle == "active" || lifecycle == "staged" || lifecycle == "overlap"
  }

  predicate Uncovered(roots: map<string, string>, covered: set<string>, a: Authority) {
    a.mesh in roots && Current(a.lifecycle) && a.id !in covered
  }

  predicate AssignmentOk(tools: Tools, relays: map<string, Tree>, roots: map<string, string>, a: Assignment) {
    if a.desired == "removed" then a.state == "removed"
    else
      && a.host in relays
      && a.appliedRevision == Some(a.revision)
      && (a.state == "ready" || a.state == "draining" || a.state == "suspended")
      && var noise := Read(relays[a.host], ["meshes", a.mesh, "noise.key"], 32);
      var root := Read(relays[a.host], ["meshes", a.mesh, "root.pub"], 32);
      && noise.Some? && PublicKey(tools.x25519, noise.value) == Some(a.publicKey)
      && root.Some? && a.mesh in roots && Hex(root.value) == roots[a.mesh]
      && !Exists(relays[a.host], ["meshes", a.mesh, "terminated.bin"])
  }

  predicate Settling(meshes: seq<Mesh>) {
    exists i :: 0 <= i < |meshes| && (meshes[i].lifecycle == "creating" || meshes[i].lifecycle == "deleting")
  }

  ghost predicate HostsOk(tools: Tools, hosts: map<string, Host>, relays: map<string, Tree>) {
    hosts.Keys == relays.Keys && forall h :: h in relays ==> HostOk(tools, relays[h], hosts[h])
  }

  ghost predicate MeshesOk(tools: Tools, authorities: map<string, Authority>, control: Tree, meshes: set<string>) {
    forall mesh :: mesh in meshes ==> MeshOk(tools, authorities, control, mesh)
  }

  ghost predicate NoneUncovered(authorities: map<string, Authority>, roots: map<string, string>, covered: set<string>) {
    forall id :: id in authorities ==> !Uncovered(roots, covered, authorities[id])
  }

  ghost predicate AssignmentsOk(tools: Tools, relays: map<string, Tree>, roots: map<string, string>,
                                assignments: seq<Assignment>) {
    forall i :: 0 <= i < |assignments| ==> AssignmentOk(tools, relays, roots, assignments[i])
  }

  /** The material and the snapshot describe the same installation. */
  ghost predicate Accepted(tools: Tools, v: Snapshot, control: Tree, relays: map<string, Tree>) {
    && v.compatible && TlsPair(tools, control) && !Settling(v.meshes)
    && HostsOk(tools, HostsById(v.hosts), relays)
    && MeshesOk(tools, AuthoritiesById(v.authorities), control, ActiveMeshes(v.meshes))
    && NoneUncovered(AuthoritiesById(v.authorities), Roots(tools, control, v.meshes), Covered(tools, control, v.meshes))
    && AssignmentsOk(tools, relays, Roots(tools, control, v.meshes), v.assignments)
  }

  datatype Counts = Counts(meshes: nat, relayHosts: nat, authorities: nat)

  function CountsOf(tools: Tools, v: Snapshot, control: Tree): Counts {
    Counts(|ActiveMeshes(v.meshes)|, |HostsById(v.hosts)|, |Covered(tools, control, v.meshes)|)
  }

  // ---------- The program ----------

  /** The issuers of one bundle. */
  method CheckIssuers(tools: Tools, authorities: map<string, Authority>, mesh: string, root: string,
                      issuers: seq<Issuer>)
    returns (r: Option<set<string>>)
    ensures r.Some? <==> forall i :: 0 <= i < |issuers| ==> IssuerOk(tools, authorities, mesh, root, issuers[i])
    ensures r.Some? ==> r.value == set i | 0 <= i < |issuers| :: issuers[i].authorityId
  {
    var covered: set<string> := {};
    for k := 0 to |issuers|
      invariant forall i :: 0 <= i < k ==> IssuerOk(tools, authorities, mesh, root, issuers[i])
      invariant covered == set i | 0 <= i < k :: issuers[i].authorityId
    {
      if !IssuerOk(tools, authorities, mesh, root, issuers[k]) { return None; }
      covered := covered + {issuers[k].authorityId};
    }
    return Some(covered);
  }

  method CheckMesh(tools: Tools, authorities: map<string, Authority>, control: Tree, mesh: string)
    returns (r: Option<set<string>>)
    ensures r.Some? <==> MeshOk(tools, authorities, control, mesh)
    ensures r.Some? ==> r.value == CoveredBy(tools, control, mesh)
  {
    var bundle := BundleOf(tools, control, mesh);
    if bundle.None? { return None; }
    if Read(control, ["recovery", mesh + ".recovery"], LIMIT) != Some(bundle.value.recovery) { return None; }
    var root := bundle.value.issuer.root;
    if !Texts.IsDigest(root) { return None; }
    r := CheckIssuers(tools, authorities, mesh, root, Issuers(bundle.value));
  }

  lemma {:induction false} MeshStep(tools: Tools, control: Tree, meshes: seq<Mesh>, k: nat)
    requires k < |meshes|
    ensures var id, active := meshes[k].id, meshes[k].lifecycle == "active";
            var a, b := meshes[..k], meshes[..k + 1];
            && ActiveMeshes(b) == ActiveMeshes(a) + (if active then {id} else {})
            && (active ==> Roots(tools, control, b) == Roots(tools, control, a)[id := RootOf(tools, control, id)])
            && (!active ==> Roots(tools, control, b) == Roots(tools, control, a))
            && (active ==> Covered(tools, control, b) == Covered(tools, control, a) + CoveredBy(tools, control, id))
            && (!active ==> Covered(tools, control, b) == Covered(tools, control, a))
  {
  }

  /** The loop over the meshes, filling `roots` and `covered`. */
  method CheckMeshes(tools: Tools, authorities: map<string, Authority>, control: Tree, meshes: seq<Mesh>)
    returns (ok: bool, roots: map<string, string>, covered: set<string>)
    ensures ok <==> MeshesOk(tools, authorities, control, ActiveMeshes(meshes))
    ensures ok ==> roots == Roots(tools, control, meshes) && covered == Covered(tools, control, meshes)
  {
    roots, covered := map[], {};
    for k := 0 to |meshes|
      invariant forall mesh :: mesh in ActiveMeshes(meshes[..k]) ==> MeshOk(tools, authorities, control, mesh)
      invariant roots == Roots(tools, control, meshes[..k]) && covered == Covered(tools, control, meshes[..k])
    {
      MeshStep(tools, control, meshes, k);
      if meshes[k].lifecycle == "active" {
        var ids := CheckMesh(tools, authorities, control, meshes[k].id);
        if ids.None? {
          assert meshes[k].id in ActiveMeshes(meshes);
          return false, roots, covered;
        }
        roots := roots[meshes[k].id := BundleOf(tools, control, meshes[k].id).value.issuer.root];
        covered := covered + ids.value;
      }
    }
    assert meshes[..|meshes|] == meshes;
    return true, roots, covered;
  }

  method CheckHosts(tools: Tools, hosts: map<string, Host>, relays: map<string, Tree>) returns (ok: bool)
    requires hosts.Keys == relays.Keys
    ensures ok <==> HostsOk(tools, hosts, relays)
  {
    var left := relays.Keys;
    while left != {}
      invariant left <= relays.Keys
      invariant forall h :: h in relays && h !in left ==> HostOk(tools, relays[h], hosts[h])
    {
      var h :| h in left;
      if !HostOk(tools, relays[h], hosts[h]) { return false; }
      left := left - {h};
    }
    return true;
  }

  method CheckAssignments(tools: Tools, relays: map<string, Tree>, roots: map<string, string>,
                          assignments: seq<Assignment>)
    returns (ok: bool)
    ensures ok <==> AssignmentsOk(tools, relays, roots, assignments)
  {
    for k := 0 to |assignments|
      invariant forall i :: 0 <= i < k ==> AssignmentOk(tools, relays, roots, assignments[i])
    {
      if !AssignmentOk(tools, relays, roots, assignments[k]) { return false; }
    }
    return true;
  }

  /** `verify_material`: accepts exactly the consistent installations and counts what it saw. */
  method VerifyMaterial(tools: Tools, v: Snapshot, control: Tree, relays: map<string, Tree>) returns (r: Option<Counts>)
    ensures r.Some? <==> Accepted(tools, v, control, relays)
    ensures r.Some? ==> r.value == CountsOf(tools, v, control)
  {
    if !v.compatible || !TlsPair(tools, control) || Settling(v.meshes) { return None; }
    var hosts := HostsById(v.hosts);
    if hosts.Keys != relays.Keys { return None; }
    var hostsOk := CheckHosts(tools, hosts, relays);
    if !hostsOk { return None; }
    var authorities := AuthoritiesById(v.authorities);
    var meshesOk, roots, covered := CheckMeshes(tools, authorities, control, v.meshes);
    if !meshesOk { return None; }
    if exists id :: id in authorities && Uncovered(roots, covered, authorities[id]) { return None; }
    var assignmentsOk := CheckAssignments(tools, relays, roots, v.assignments);
    if !assignmentsOk { return None; }
    assert roots.Keys == ActiveMeshes(v.meshes);
    return Some(Counts(|roots|, |hosts|, |covered|));
  }

  // ---------- What extraction makes of a tree ----------

  /** The files of a tree in the directories they need, which is all that an archive keeps. */
  function Bare(files: map<Path, Bytes>): Tree {
    Tree(files, set q, k | q in files && 0 <= k < |q| :: q[..k], {})
  }

  ghost predicate Rooted(t: Tree) {
    t.strange == {} && forall p, q :: q in t.files && Publish.Proper(p, q) ==> p in t.dirs
  }

  /** A directory without any file below it. */
  predicate EmptyDirectory(t: Tree, p: Path) {
    p in t.dirs && forall q :: q in t.files ==> !Publish.Proper(p, q)
  }

  /** Only empty directories are forgotten. */
  lemma {:induction false} BareExists(t: Tree, p: Path)
    requires Rooted(t)
    ensures Exists(t, p) <==> Exists(Bare(t.files), p) || EmptyDirectory(t, p)
  {
    if p in Bare(t.files).dirs {
      var q, k :| q in t.files && 0 <= k < |q| && p == q[..k];
      assert Publish.Proper(p, q);
    }
    if q :| q in t.files && Publish.Proper(p, q) {
      assert p == q[..|p|];
    }
  }

  function Terminated(a: Assignment): Path {
    ["meshes", a.mesh, "terminated.bin"]
  }

  /** The assignment is live and its Relay has an empty directory for its terminal record. */
  predicate EmptyMark(relays: map<string, Tree>, a: Assignment) {
    a.desired != "removed" && a.host in relays && EmptyDirectory(relays[a.host], Terminated(a))
  }

  lemma {:induction false} MeshesReadTheSame(tools: Tools, v: Snapshot, t: Tree, t': Tree)
    requires t.strange == {} && t' == Bare(t.files)
    ensures forall mesh :: BundleOf(tools, t, mesh) == BundleOf(tools, t', mesh)
    ensures Roots(tools, t, v.meshes) == Roots(tools, t', v.meshes)
    ensures Covered(tools, t, v.meshes) == Covered(tools, t', v.meshes)
  {
    forall mesh
      ensures BundleOf(tools, t, mesh) == BundleOf(tools, t', mesh)
      ensures CoveredBy(tools, t, mesh) == CoveredBy(tools, t', mesh)
    {
      assert Read(t, ["meshes", mesh, "issuer.json"], 65536) == Read(t', ["meshes", mesh, "issuer.json"], 65536);
    }
  }

  lemma {:induction false} HostReadsTheSame(tools: Tools, t: Tree, t': Tree, host: Host)
    requires t.strange == {} && t' == Bare(t.files)
    ensures HostOk(tools, t, host) <==> HostOk(tools, t', host)
  {
  }

  lemma {:induction false} MeshReadsTheSame(tools: Tools, authorities: map<string, Authority>, t: Tree, t': Tree,
                                            mesh: string)
    requires t.strange == {} && t' == Bare(t.files)
    ensures MeshOk(tools, authorities, t, mesh) <==> MeshOk(tools, authorities, t', mesh)
  {
  }

  lemma {:induction false} AssignmentReadsTheSame(tools: Tools, relays: map<string, Tree>, relays': map<string, Tree>,
                                                  roots: map<string, string>, a: Assignment)
    requires relays.Keys == relays'.Keys
    requires forall h :: h in relays ==> Rooted(relays[h]) && relays'[h] == Bare(relays[h].files)
    ensures AssignmentOk(tools, relays, roots, a) <==> AssignmentOk(tools, relays', roots, a) && !EmptyMark(relays, a)
  {
    if a.desired != "removed" && a.host in relays { BareExists(relays[a.host], Terminated(a)); }
  }

  lemma {:induction false} AllMeshesReadTheSame(tools: Tools, authorities: map<string, Authority>, t: Tree, t': Tree,
                                                meshes: set<string>)
    requires t.strange == {} && t' == Bare(t.files)
    ensures MeshesOk(tools, authorities, t, meshes) <==> MeshesOk(tools, authorities, t', meshes)
  {
    forall mesh
      ensures MeshOk(tools, authorities, t, mesh) <==> MeshOk(tools, authorities, t', mesh)
    {
      MeshReadsTheSame(tools, authorities, t, t', mesh);
    }
  }

  lemma {:induction false} HostsReadTheSame(tools: Tools, hosts: map<string, Host>, relays: map<string, Tree>,
                                            relays': map<string, Tree>)
    requires relays.Keys == relays'.Keys
    requires forall h :: h in relays ==> Rooted(relays[h]) && relays'[h] == Bare(relays[h].files)
    ensures HostsOk(tools, hosts, relays) <==> HostsOk(tools, hosts, relays')
  {
    forall h | h in relays && h in hosts
      ensures HostOk(tools, relays[h], hosts[h]) <==> HostOk(tools, relays'[h], hosts[h])
    {
      HostReadsTheSame(tools, relays[h], relays'[h], hosts[h]);
    }
  }

  lemma {:induction false} AssignmentsReadTheSame(tools: Tools, relays: map<string, Tree>, relays': map<string, Tree>,
                                                  roots: map<string, string>, assignments: seq<Assignment>)
    requires relays.Keys == relays'.Keys
    requires forall h :: h in relays ==> Rooted(relays[h]) && relays'[h] == Bare(relays[h].files)
    ensures AssignmentsOk(tools, relays, roots, assignments) <==>
            && AssignmentsOk(tools, relays', roots, assignments)
            && (forall i :: 0 <= i < |assignments| ==> !EmptyMark(relays, assignments[i]))
  {
    forall i | 0 <= i < |assignments|
      ensures AssignmentOk(tools, relays, roots, assignments[i]) <==>
                AssignmentOk(tools, relays', roots, assignments[i]) && !EmptyMark(relays, assignments[i])
    {
      AssignmentReadsTheSame(tools, relays, relays', roots, assignments[i]);
    }
  }

  /** Material is accepted exactly when its extracted copy is accepted and no live assignment
      has an empty directory for a terminal record; the counts are the same. */
  lemma {:induction false} CopyIsAccepted(tools: Tools, v: Snapshot, control: Tree, relays: map<string, Tree>,
                                          control': Tree, relays': map<string, Tree>)
    requires control.strange == {} && control' == Bare(control.files)
    requires relays.Keys == relays'.Keys
    requires forall h :: h in relays ==> Rooted(relays[h]) && relays'[h] == Bare(relays[h].files)
    ensures Accepted(tools, v, control, relays) <==>
              && Accepted(tools, v, control', relays')
              && forall i :: 0 <= i < |v.assignments| ==> !EmptyMark(relays, v.assignments[i])
    ensures CountsOf(tools, v, control') == CountsOf(tools, v, control)
  {
    MeshesReadTheSame(tools, v, control, control');
    HostsReadTheSame(tools, HostsById(v.hosts), relays, relays');
    AllMeshesReadTheSame(tools, AuthoritiesById(v.authorities), control, control', ActiveMeshes(v.meshes));
    AssignmentsReadTheSame(tools, relays, relays', Roots(tools, control, v.meshes), v.assignments);
  }
}
