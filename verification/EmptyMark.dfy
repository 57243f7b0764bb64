/** An installation whose refusal does not survive backup and restore: a live assignment with an
    empty directory where the terminal record of its mesh would be. */
module EmptyMarkExample {
  import opened Octets
  import opened Records
  import opened Material
  import Publish
  import Texts

  lemma {:induction false} HexIsHex(b: Bytes)
    ensures |Hex(b)| == 2 * |b| && forall i :: 0 <= i < |Hex(b)| ==> Texts.IsHex(Hex(b)[i])
    decreases |b|
  {
    if b != [] { HexIsHex(b[1..]); }
  }

  // The smallest consistent installation: one Control, one Relay, one mesh, one assignment.

  function ExampleIssuer(key: Bytes): Issuer {
    Issuer("a", "m", Hex(key), [], key, key, key, key)
  }

  /** Tools that accept everything. */
  ghost predicate Obliging(tools: Tools, key: Bytes) {
    forall b :: && tools.certificatePublic(b) == Some([]) == tools.keyPublic(b)
                && tools.certificateDigest(b) == Some("d")
                && tools.ed25519(b) == Some("k") == tools.x25519(b)
                && tools.bundle(b) == Some(Bundle([], ExampleIssuer(key), []))
  }

  lemma {:induction false} ObligingTools(key: Bytes) returns (tools: Tools)
    ensures Obliging(tools, key)
  {
    tools := Tools(_ => Some([]), _ => Some([]), _ => Some("d"), _ => Some("k"), _ => Some("k"),
                   _ => Some(Bundle([], ExampleIssuer(key), [])));
  }

  function ExampleSnapshot(): Snapshot {
    Snapshot(true, [Mesh("m", "active")], [Authority("a", "m", "active", "k", [])], [Host("h", "d")],
             [Assignment("h", "m", "present", "ready", 1, Some(1), "k")])
  }

  function ExampleControl(): map<Path, Bytes> {
    map[["tls.pem"] := [], ["tls.key"] := [], ["meshes", "m", "issuer.json"] := [], ["recovery", "m.recovery"] := []]
  }

  function ExampleRelay(key: Bytes): map<Path, Bytes> {
    map[["tls.pem"] := [], ["tls.key"] := [], ["meshes", "m", "noise.key"] := key, ["meshes", "m", "root.pub"] := key]
  }

  lemma {:induction false} ExampleRows()
    ensures var v := ExampleSnapshot();
            && AuthoritiesById(v.authorities) == map["a" := v.authorities[0]]
            && HostsById(v.hosts) == map["h" := v.hosts[0]]
            && ActiveMeshes(v.meshes) == {"m"} && !Settling(v.meshes)
  {
    var v := ExampleSnapshot();
    assert v.authorities[..0] == [] && v.hosts[..0] == [];
    assert v.meshes[0].id in ActiveMeshes(v.meshes);
  }

  lemma {:induction false} ExampleMesh(tools: Tools, key: Bytes)
    requires |key| == 32 && Obliging(tools, key)
    ensures var v, control := ExampleSnapshot(), Bare(ExampleControl());
            && MeshOk(tools, map["a" := v.authorities[0]], control, "m")
            && Roots(tools, control, v.meshes) == map["m" := Hex(key)] && "a" in Covered(tools, control, v.meshes)
  {
    var control := Bare(ExampleControl());
    ExampleRows();
    HexIsHex(key);
    assert "m" + ".recovery" == "m.recovery";
    assert BundleOf(tools, control, "m") == Some(Bundle([], ExampleIssuer(key), []));
    assert Issuers(Bundle([], ExampleIssuer(key), []))[0] == ExampleIssuer(key);
    assert ExampleIssuer(key).authorityId in CoveredBy(tools, control, "m");
  }

  lemma {:induction false} ConsistentExample(tools: Tools, key: Bytes)
    requires |key| == 32 && Obliging(tools, key)
    ensures Accepted(tools, ExampleSnapshot(), Bare(ExampleControl()), map["h" := Bare(ExampleRelay(key))])
  {
    ExampleRows();
    ExampleMesh(tools, key);
    assert HostOk(tools, Bare(ExampleRelay(key)), ExampleSnapshot().hosts[0]);
    assert AssignmentOk(tools, map["h" := Bare(ExampleRelay(key))], map["m" := Hex(key)],
                        ExampleSnapshot().assignments[0]);
  }

  lemma {:induction false} BareIsRooted(files: map<Path, Bytes>)
    ensures Rooted(Bare(files))
  {
    forall p, q | q in files && Publish.Proper(p, q)
      ensures p in Bare(files).dirs
    {
      assert p == q[..|p|];
    }
  }

  /** The same with an empty `terminated.bin` directory in the Relay: refused as it stands,
      accepted once it went through an archive. */
  lemma {:induction false} EmptyMarkIsForgotten(key: Bytes) returns (tools: Tools, relay: Tree)
    requires |key| == 32
    ensures relay.files == ExampleRelay(key) && Rooted(relay)
    ensures !Accepted(tools, ExampleSnapshot(), Bare(ExampleControl()), map["h" := relay])
    ensures Accepted(tools, ExampleSnapshot(), Bare(ExampleControl()), map["h" := Bare(relay.files)])
  {
    var files, v := ExampleRelay(key), ExampleSnapshot();
    tools := ObligingTools(key);
    ConsistentExample(tools, key);
    relay := Tree(files, Bare(files).dirs + {Terminated(v.assignments[0])}, {});
    BareIsRooted(files);
    CopyIsAccepted(tools, v, Bare(ExampleControl()), map["h" := relay],
                   Bare(ExampleControl()), map["h" := Bare(files)]);
    assert EmptyMark(map["h" := relay], v.assignments[0]);
  }
}
