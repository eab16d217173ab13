/**
 The contract manifest: the framed stream its checksum covers, and the verification that accepts
 exactly the manifest that generation would write.
 */
module Manifest {
  import opened Common
  import Ordering
  import CanonicalJson
  import Sha256

  type Json = CanonicalJson.Json

  datatype Artifact = Artifact(path: Bytes, bytes: Bytes)

  const NUL: Byte := 0
  const MANIFEST_PATH: Bytes := Ascii("manifest.json")

  // ---------------------------------------------------------------------------------------
  // The checksum stream
  // ---------------------------------------------------------------------------------------

  function Decimal(n: nat): (r: Bytes)
    ensures r != [] && forall i :: 0 <= i < |r| ==> 48 <= r[i] <= 57
  {
    if n < 10 then [48 + n] else Decimal(n / 10) + [48 + n % 10]
  }

  function Frame(a: Artifact): Bytes {
    a.path + [NUL] + (Decimal(|a.bytes|) + [NUL] + a.bytes)
  }

  function Frames(entries: seq<Artifact>): Bytes {
    if entries == [] then [] else Frame(entries[0]) + Frames(entries[1..])
  }

  predicate PathLeq(a: Artifact, b: Artifact) {
    CanonicalJson.KeyLeq(a.path, b.path)
  }

  /** Frames in path order; entries with one path keep the order given. */
  function Stream(entries: seq<Artifact>): Bytes {
    Frames(Ordering.Sort(PathLeq, entries))
  }

  function Entries(core: Json, artifacts: seq<Artifact>): seq<Artifact> {
    artifacts + [Artifact(MANIFEST_PATH, CanonicalJson.Canonical(core))]
  }

  function Checksum(core: Json, artifacts: seq<Artifact>): string {
    Sha256.Digest(Stream(Entries(core, artifacts)))
  }

  lemma {:induction false} FramesSnoc(entries: seq<Artifact>, a: Artifact)
    ensures Frames(entries + [a]) == Frames(entries) + Frame(a)
  {
    if entries == [] {
      assert entries + [a] == [a] && [a][1..] == [];
    } else {
      assert (entries + [a])[1..] == entries[1..] + [a];
      FramesSnoc(entries[1..], a);
    }
  }

  method FrameAll(entries: seq<Artifact>) returns (input: Bytes)
    ensures input == Frames(entries)
  {
    input := [];
    for i := 0 to |entries|
      invariant input == Frames(entries[..i])
    {
      ghost var before := input;
      input := input + entries[i].path;
      input := input + [NUL];
      input := input + Decimal(|entries[i].bytes|);
      input := input + [NUL];
      input := input + entries[i].bytes;
      assert input == before + Frame(entries[i]);
      FramesSnoc(entries[..i], entries[i]);
      assert entries[..i + 1] == entries[..i] + [entries[i]];
    }
    assert entries[..|entries|] == entries;
  }

  method ComputeChecksum(core: Json, artifacts: seq<Artifact>) returns (r: string)
    requires CanonicalJson.WellFormed(core)
    ensures r == Checksum(core, artifacts)
  {
    var canonical := CanonicalJson.CanonicalJson(core);
    var entries := artifacts + [Artifact(MANIFEST_PATH, canonical)];
    entries := Ordering.Sort(PathLeq, entries);
    var input := FrameAll(entries);
    r := Sha256.DigestHex(input);
  }

  // ---------------------------------------------------------------------------------------
  // A reader of the stream
  // ---------------------------------------------------------------------------------------

  /** The text before the first NUL and what follows it. */
  function UpToNul(s: Bytes): (r: Option<(Bytes, Bytes)>)
    ensures r.Some? ==> |r.value.1| < |s|
  {
    if s == [] then None
    else if s[0] == NUL then Some(([], s[1..]))
    else
      var rest := UpToNul(s[1..]);
      if rest.None? then None else Some(([s[0]] + rest.value.0, rest.value.1))
  }

  function ReadDecimal(s: Bytes): Option<nat> {
    if s == [] || !(48 <= s[|s| - 1] <= 57) then None
    else if |s| == 1 then Some(s[0] - 48)
    else
      var high := ReadDecimal(s[..|s| - 1]);
      if high.None? then None else Some(10 * high.value + (s[|s| - 1] - 48))
  }

  function ReadFrame(s: Bytes): (r: Option<(Artifact, Bytes)>)
    ensures r.Some? ==> |r.value.1| < |s|
  {
    var path := UpToNul(s);
    if path.None? then None
    else
      var length := UpToNul(path.value.1);
      if length.None? then None
      else
        var n, rest := ReadDecimal(length.value.0), length.value.1;
        if n.None? || n.value > |rest| then None
        else Some((Artifact(path.value.0, rest[..n.value]), rest[n.value..]))
  }

  function ReadFrames(s: Bytes): Option<seq<Artifact>>
    decreases |s|
  {
    if s == [] then Some([])
    else
      var first := ReadFrame(s);
      if first.None? then None
      else
        var rest := ReadFrames(first.value.1);
        if rest.None? then None else Some([first.value.0] + rest.value)
  }

  predicate NulFree(s: Bytes) {
    forall i :: 0 <= i < |s| ==> s[i] != NUL
  }

  ghost predicate NulFreePaths(entries: seq<Artifact>) {
    forall i :: 0 <= i < |entries| ==> NulFree(entries[i].path)
  }

  lemma {:induction false} DecimalIsRead(n: nat)
    ensures ReadDecimal(Decimal(n)) == Some(n)
  {
    if n >= 10 {
      var s := Decimal(n);
      DecimalIsRead(n / 10);
      assert s[..|s| - 1] == Decimal(n / 10) && s[|s| - 1] == 48 + n % 10;
    }
  }

  lemma {:induction false} NulEndsText(p: Bytes, x: Bytes)
    requires NulFree(p)
    ensures UpToNul(p + [NUL] + x) == Some((p, x))
  {
    var s := p + [NUL] + x;
    if p == [] {
      assert s[0] == NUL && s[1..] == x;
    } else {
      assert s[0] == p[0] && s[1..] == p[1..] + [NUL] + x;
      NulEndsText(p[1..], x);
      assert p == [p[0]] + p[1..];
    }
  }

  lemma Regroup(path: Bytes, length: Bytes, bytes: Bytes, x: Bytes)
    ensures path + [NUL] + (length + [NUL] + bytes) + x == path + [NUL] + (length + [NUL] + (bytes + x))
    ensures (bytes + x)[..|bytes|] == bytes && (bytes + x)[|bytes|..] == x
  {
  }

  /** A frame is read back, whatever follows it. */
  lemma FrameIsRead(a: Artifact, x: Bytes)
    requires NulFree(a.path)
    ensures ReadFrame(Frame(a) + x) == Some((a, x))
  {
    var n := Decimal(|a.bytes|);
    Regroup(a.path, n, a.bytes, x);
    NulEndsText(a.path, n + [NUL] + (a.bytes + x));
    NulEndsText(n, a.bytes + x);
    DecimalIsRead(|a.bytes|);
  }

  /** With NUL-free paths the stream is read back as the entries it was written from. */
  lemma {:induction false} FramesAreRead(entries: seq<Artifact>)
    requires NulFreePaths(entries)
    ensures ReadFrames(Frames(entries)) == Some(entries)
  {
    if entries != [] {
      FrameIsRead(entries[0], Frames(entries[1..]));
      FramesAreRead(entries[1..]);
      assert entries == [entries[0]] + entries[1..];
    }
  }

  lemma {:induction false} TextBeforeNul(s: Bytes)
    ensures UpToNul(s).Some? ==> NulFree(UpToNul(s).value.0)
  {
    if s != [] && s[0] != NUL {
      TextBeforeNul(s[1..]);
    }
  }

  /** Whatever the reader gets from a stream, its paths hold no NUL. */
  lemma {:induction false} ReadPathsAreNulFree(s: Bytes)
    ensures ReadFrames(s).Some? ==> NulFreePaths(ReadFrames(s).value)
    decreases |s|
  {
    if s != [] && ReadFrame(s).Some? {
      TextBeforeNul(s);
      ReadPathsAreNulFree(ReadFrame(s).value.1);
    }
  }

  /** The reader gives a stream's entries back if and only if no path holds a NUL. */
  lemma FramesAreReadExactly(entries: seq<Artifact>)
    ensures ReadFrames(Frames(entries)) == Some(entries) <==> NulFreePaths(entries)
  {
    ReadPathsAreNulFree(Frames(entries));
    if NulFreePaths(entries) {
      FramesAreRead(entries);
    }
  }

  /** With a NUL in a path the framing is ambiguous. */
  lemma NulPathIsAmbiguous()
    ensures exists s: seq<Artifact>, t: seq<Artifact> :: s != t && Frames(s) == Frames(t)
  {
    var s := [Artifact([97, NUL, 48, NUL], [])];
    var t := [Artifact([97], []), Artifact([], [])];
    assert Decimal(0) == [48];
    assert Frames(s) == [97, NUL, 48, NUL, NUL, 48, NUL] by {
      assert s[1..] == [];
    }
    assert Frames(t) == [97, NUL, 48, NUL, NUL, 48, NUL] by {
      assert t[1..] == [t[1]] && t[1..][1..] == [];
    }
    assert s != t by {
      assert |s| != |t|;
    }
  }

  lemma PathsAreOrdered()
    ensures Ordering.TotalPreorder(PathLeq)
    ensures forall a, b :: PathLeq(a, b) && PathLeq(b, a) ==> a.path == b.path
  {
    CanonicalJson.KeysAreOrdered();
  }

  /** Equal streams hold the same entries, each as often. */
  lemma {:induction false} StreamTellsEntries(s: seq<Artifact>, t: seq<Artifact>)
    requires NulFreePaths(s) && NulFreePaths(t) && Stream(s) == Stream(t)
    ensures multiset(s) == multiset(t)
  {
    var x, y := Ordering.Sort(PathLeq, s), Ordering.Sort(PathLeq, t);
    PathsAreOrdered();
    Ordering.SortIsSortedPermutation(PathLeq, s);
    Ordering.SortIsSortedPermutation(PathLeq, t);
    assert NulFreePaths(x) && NulFreePaths(y) by {
      assert forall i :: 0 <= i < |x| ==> x[i] in s;
      assert forall i :: 0 <= i < |y| ==> y[i] in t;
    }
    FramesAreRead(x);
    FramesAreRead(y);
  }

  // ---------------------------------------------------------------------------------------
  // When the order of the entries does not matter
  // ---------------------------------------------------------------------------------------

  ghost predicate PathsDetermineBytes(s: seq<Artifact>) {
    forall i, j :: 0 <= i < |s| && 0 <= j < |s| && s[i].path == s[j].path ==> s[i] == s[j]
  }

  ghost predicate OrderNeverMatters(s: seq<Artifact>) {
    forall t :: multiset(t) == multiset(s) ==> Stream(t) == Stream(s)
  }

  lemma {:induction false} StreamForgetsOrder(s: seq<Artifact>, t: seq<Artifact>)
    requires multiset(s) == multiset(t) && PathsDetermineBytes(s)
    ensures Stream(s) == Stream(t)
  {
    PathsAreOrdered();
    assert Ordering.Antisymmetric(PathLeq, s);
    Ordering.SortForgetsOrder(PathLeq, s, t);
  }

  lemma {:induction false} InsertionOrderShows(a: Artifact, b: Artifact, s: seq<Artifact>)
    requires a.path == b.path && a != b
    ensures Ordering.Insert(PathLeq, a, Ordering.Insert(PathLeq, b, s))
         != Ordering.Insert(PathLeq, b, Ordering.Insert(PathLeq, a, s))
  {
    PathsAreOrdered();
    assert PathLeq(a, b) && PathLeq(b, a);
    var x, y := Ordering.Insert(PathLeq, a, s), Ordering.Insert(PathLeq, b, s);
    if s == [] || PathLeq(a, s[0]) {
      assert x == [a] + s && y == [b] + s;
      assert Ordering.Insert(PathLeq, a, y)[0] == a && Ordering.Insert(PathLeq, b, x)[0] == b;
    } else {
      assert x == [s[0]] + Ordering.Insert(PathLeq, a, s[1..]);
      assert y == [s[0]] + Ordering.Insert(PathLeq, b, s[1..]);
      InsertionOrderShows(a, b, s[1..]);
      assert x[1..] == Ordering.Insert(PathLeq, a, s[1..]) && y[1..] == Ordering.Insert(PathLeq, b, s[1..]);
      assert Ordering.Insert(PathLeq, a, y)[1..] == Ordering.Insert(PathLeq, a, y[1..]);
      assert Ordering.Insert(PathLeq, b, x)[1..] == Ordering.Insert(PathLeq, b, x[1..]);
    }
  }

  lemma {:induction false} SwapSorts(a: Artifact, b: Artifact, rest: seq<Artifact>)
    requires a.path == b.path && a != b
    ensures Ordering.Sort(PathLeq, [a, b] + rest) != Ordering.Sort(PathLeq, [b, a] + rest)
  {
    var s, t := [a, b] + rest, [b, a] + rest;
    assert s[1..] == [b] + rest && t[1..] == [a] + rest && s[1..][1..] == rest && t[1..][1..] == rest;
    InsertionOrderShows(a, b, Ordering.Sort(PathLeq, rest));
  }

  lemma {:induction false} SwapShows(a: Artifact, b: Artifact, rest: seq<Artifact>)
    requires a.path == b.path && a != b && NulFreePaths([a, b] + rest)
    ensures Stream([a, b] + rest) != Stream([b, a] + rest)
  {
    var s, t := [a, b] + rest, [b, a] + rest;
    SwapSorts(a, b, rest);
    NulFreeSorted(s);
    NulFreeSorted(t);
    FramesAreRead(Ordering.Sort(PathLeq, s));
    FramesAreRead(Ordering.Sort(PathLeq, t));
  }

  lemma {:induction false} NulFreeSorted(s: seq<Artifact>)
    requires NulFreePaths(s)
    ensures NulFreePaths(Ordering.Sort(PathLeq, s))
  {
    PathsAreOrdered();
    Ordering.SortIsSortedPermutation(PathLeq, s);
    assert forall x :: x in Ordering.Sort(PathLeq, s) ==> NulFree(x.path);
  }

  lemma BringForward(s: seq<Artifact>, i: nat, j: nat, rest: seq<Artifact>)
    requires i < j < |s| && rest == s[..i] + s[i + 1..j] + s[j + 1..]
    ensures multiset([s[i], s[j]] + rest) == multiset([s[j], s[i]] + rest) == multiset(s)
  {
    assert s == s[..i] + [s[i]] + s[i + 1..j] + [s[j]] + s[j + 1..];
  }

  lemma {:induction false} SharedPathShowsOrder(s: seq<Artifact>, i: nat, j: nat)
    requires NulFreePaths(s) && i < j < |s| && s[i].path == s[j].path && s[i] != s[j]
    ensures !OrderNeverMatters(s)
  {
    var rest := s[..i] + s[i + 1..j] + s[j + 1..];
    BringForward(s, i, j, rest);
    assert NulFreePaths([s[i], s[j]] + rest);
    SwapShows(s[i], s[j], rest);
    var t, u := [s[i], s[j]] + rest, [s[j], s[i]] + rest;
    assert Stream(t) != Stream(s) || Stream(u) != Stream(s);
  }

  /** The stream ignores the order of its entries exactly when one path never has two contents. */
  lemma {:induction false} OrderNeverMattersExactly(s: seq<Artifact>)
    requires NulFreePaths(s)
    ensures OrderNeverMatters(s) <==> PathsDetermineBytes(s)
  {
    if PathsDetermineBytes(s) {
      forall t | multiset(t) == multiset(s) ensures Stream(t) == Stream(s) {
        StreamForgetsOrder(s, t);
      }
    } else {
      var i, j :| 0 <= i < |s| && 0 <= j < |s| && s[i].path == s[j].path && s[i] != s[j];
      SharedPathShowsOrder(s, if i < j then i else j, if i < j then j else i);
    }
  }

  // ---------------------------------------------------------------------------------------
  // What an equal checksum means
  // ---------------------------------------------------------------------------------------

  ghost predicate DistinctPaths(s: seq<Artifact>) {
    forall i, j :: 0 <= i < j < |s| ==> s[i].path != s[j].path
  }

  /** A generated artifact set: distinct NUL-free paths, none of them the manifest's. */
  ghost predicate Publishable(artifacts: seq<Artifact>) {
    && NulFreePaths(artifacts)
    && DistinctPaths(artifacts)
    && forall i :: 0 <= i < |artifacts| ==> artifacts[i].path != MANIFEST_PATH
  }

  lemma ManifestPathIsNulFree()
    ensures NulFree(MANIFEST_PATH)
  {
  }

  lemma {:induction false} EntriesIgnoreOrder(core: Json, a: seq<Artifact>, b: seq<Artifact>)
    requires Publishable(a) && multiset(a) == multiset(b)
    ensures Stream(Entries(core, a)) == Stream(Entries(core, b))
  {
    var s, t := Entries(core, a), Entries(core, b);
    assert multiset(s) == multiset(t);
    assert PathsDetermineBytes(s);
    StreamForgetsOrder(s, t);
  }

  /** One stream comes from one artifact set and one core, up to the order of both. */
  lemma {:induction false} StreamTellsManifest(c: Json, a: seq<Artifact>, d: Json, b: seq<Artifact>)
    requires CanonicalJson.WellFormed(c) && CanonicalJson.WellFormed(d) && Publishable(a) && Publishable(b)
    ensures Stream(Entries(c, a)) == Stream(Entries(d, b)) <==> multiset(a) == multiset(b) && CanonicalJson.Same(c, d)
  {
    CanonicalJson.CanonicalTextIsMeaning(c, d);
    if Stream(Entries(c, a)) == Stream(Entries(d, b)) {
      NulFreeEntries(c, a);
      NulFreeEntries(d, b);
      StreamTellsEntries(Entries(c, a), Entries(d, b));
      SplitLast(a, Entries(c, a)[|a|], b, Entries(d, b)[|b|]);
    }
    if multiset(a) == multiset(b) && CanonicalJson.Same(c, d) {
      EntriesIgnoreOrder(c, a, b);
    }
  }

  lemma NulFreeEntries(core: Json, artifacts: seq<Artifact>)
    requires Publishable(artifacts)
    ensures NulFreePaths(Entries(core, artifacts))
    ensures multiset(Entries(core, artifacts)) == multiset(artifacts) + multiset{Entries(core, artifacts)[|artifacts|]}
  {
    ManifestPathIsNulFree();
  }

  lemma {:induction false} SplitLast(a: seq<Artifact>, x: Artifact, b: seq<Artifact>, y: Artifact)
    requires Publishable(a) && Publishable(b) && x.path == y.path == MANIFEST_PATH
    requires multiset(a) + multiset{x} == multiset(b) + multiset{y}
    ensures multiset(a) == multiset(b) && x == y
  {
    assert x !in multiset(b) by {
      assert forall e :: e in b ==> e.path != MANIFEST_PATH;
    }
    assert x in multiset(b) + multiset{y};
    assert multiset(a) == multiset(a) + multiset{x} - multiset{x};
    assert multiset(b) == multiset(b) + multiset{y} - multiset{y};
  }

  /**
   One checksum for two manifests: the same manifest, or their two streams make the compression function
   collide at blocks `m` and `n` of their own chains.
   */
  lemma ChecksumTellsManifest(c: Json, a: seq<Artifact>, d: Json, b: seq<Artifact>) returns (m: nat, n: nat)
    requires CanonicalJson.WellFormed(c) && CanonicalJson.WellFormed(d) && Publishable(a) && Publishable(b)
    requires Checksum(c, a) == Checksum(d, b)
    ensures
      || (multiset(a) == multiset(b) && CanonicalJson.Same(c, d))
      || Sha256.Exposes(Stream(Entries(c, a)), Stream(Entries(d, b)), m, n)
  {
    m, n := 0, 0;
    var p, q := Stream(Entries(c, a)), Stream(Entries(d, b));
    StreamTellsManifest(c, a, d, b);
    if p != q {
      m, n := Sha256.DigestCollisionsComeFromCompression(p, q);
    }
  }

  // ---------------------------------------------------------------------------------------
  // Generation and verification
  // ---------------------------------------------------------------------------------------

  const CHECKSUM_ALGORITHM: Bytes := Ascii("sha256 over lexicographic path,NUL,decimal-length,NUL,bytes entries; manifest.json uses recursively key-sorted compact JSON without sha256; v1")
  const RELEASE_STAGE: Bytes := Ascii("release_candidate")

  datatype Profile = C0 | ReleaseCandidate

  /** The operations and realtime messages a profile lists. */
  datatype Surface = Surface(operationIds: seq<Bytes>, discriminants: seq<Bytes>)

  datatype Provenance = Provenance(
    serverTag: Option<Bytes>, serverCommit: Bytes, contractVersion: Bytes, serverVersion: Bytes)

  /** Only release candidates have a stage. */
  datatype Core = Core(
    stage: Option<Bytes>, provenance: Provenance, algorithm: Bytes, artifacts: seq<Bytes>, surface: Surface)

  datatype Manifest = Manifest(core: Core, sha256: string)

  datatype VerifyError =
    | Malformed
    | StageDiffers
    | ProvenanceDiffers
    | AlgorithmDiffers
    | ArtifactsDiffer
    | OperationsDiffer
    | DiscriminantsDiffer
    | ChecksumDiffers

  function Strings(items: seq<Bytes>): (r: seq<Json>)
    ensures |r| == |items| && forall i :: 0 <= i < |r| ==> r[i] == CanonicalJson.Str(items[i])
  {
    if items == [] then [] else [CanonicalJson.Str(items[0])] + Strings(items[1..])
  }

  function OptionalString(s: Option<Bytes>): Json {
    match s
    case None => CanonicalJson.Null
    case Some(text) => CanonicalJson.Str(text)
  }

  function CoreFields(core: Core): seq<CanonicalJson.Field> {
    [
      CanonicalJson.Field(Ascii("server_tag"), OptionalString(core.provenance.serverTag)),
      CanonicalJson.Field(Ascii("server_commit"), CanonicalJson.Str(core.provenance.serverCommit)),
      CanonicalJson.Field(Ascii("contract_version"), CanonicalJson.Str(core.provenance.contractVersion)),
      CanonicalJson.Field(Ascii("server_version"), CanonicalJson.Str(core.provenance.serverVersion)),
      CanonicalJson.Field(Ascii("checksum_algorithm"), CanonicalJson.Str(core.algorithm)),
      CanonicalJson.Field(Ascii("artifacts"), CanonicalJson.Array(Strings(core.artifacts))),
      CanonicalJson.Field(Ascii("operation_ids"), CanonicalJson.Array(Strings(core.surface.operationIds))),
      CanonicalJson.Field(Ascii("realtime_discriminants"), CanonicalJson.Array(Strings(core.surface.discriminants)))
    ]
  }

  function CoreJson(core: Core): Json {
    CanonicalJson.Object(
      if core.stage.None? then CoreFields(core)
      else [CanonicalJson.Field(Ascii("stage"), CanonicalJson.Str(core.stage.value))] + CoreFields(core)
    )
  }

  lemma CoreFieldsAreDistinct(core: Core)
    ensures CanonicalJson.DistinctKeys(CoreFields(core))
    ensures forall i :: 0 <= i < |CoreFields(core)| ==> CoreFields(core)[i].key != Ascii("stage")
  {
    assert Ascii("server_commit")[0] == 115 && Ascii("operation_ids")[0] == 111;
  }

  lemma {:induction false} StringsAreWellFormed(items: seq<Bytes>)
    ensures CanonicalJson.WellFormed(CanonicalJson.Array(Strings(items)))
  {
  }

  lemma {:induction false} CoreIsWellFormed(core: Core)
    ensures CanonicalJson.WellFormed(CoreJson(core))
  {
    CoreFieldsAreDistinct(core);
    StringsAreWellFormed(core.artifacts);
    StringsAreWellFormed(core.surface.operationIds);
    StringsAreWellFormed(core.surface.discriminants);
    assert forall i :: 0 <= i < |CoreFields(core)| ==> CanonicalJson.WellFormed(CoreFields(core)[i].value);
  }

  lemma {:induction false} StringsAreTold(a: seq<Bytes>, b: seq<Bytes>)
    requires CanonicalJson.Same(CanonicalJson.Array(Strings(a)), CanonicalJson.Array(Strings(b)))
    ensures a == b
  {
    forall i | 0 <= i < |a| ensures a[i] == b[i] {
      assert CanonicalJson.Same(Strings(a)[i], Strings(b)[i]);
    }
  }

  lemma {:induction false} FieldsAreTold(a: seq<CanonicalJson.Field>, b: seq<CanonicalJson.Field>, i: nat, j: nat)
    requires CanonicalJson.Same(CanonicalJson.Object(a), CanonicalJson.Object(b))
    requires i < |a| && j < |b| && a[i].key == b[j].key
    ensures CanonicalJson.Same(a[i].value, b[j].value)
  {
  }

  /** The JSON of a core determines the core: no field of it is missing from the checksum. */
  lemma {:induction false} CoreIsTold(c: Core, d: Core)
    requires CanonicalJson.Same(CoreJson(c), CoreJson(d))
    ensures c == d
  {
    StageIsTold(c, d);
    forall k | 0 <= k < 8 ensures CanonicalJson.Same(CoreFields(c)[k].value, CoreFields(d)[k].value) {
      CoreFieldIsTold(c, d, k);
    }
    CoreFieldsAreTold(c, d);
  }

  lemma {:induction false} StageIsTold(c: Core, d: Core)
    requires CanonicalJson.Same(CoreJson(c), CoreJson(d))
    ensures c.stage == d.stage
  {
    var a, b := CoreJson(c).fields, CoreJson(d).fields;
    assert |a| == |b|;
    if c.stage.Some? {
      FieldsAreTold(a, b, 0, 0);
    }
  }

  lemma {:induction false} CoreFieldIsTold(c: Core, d: Core, k: nat)
    requires CanonicalJson.Same(CoreJson(c), CoreJson(d)) && c.stage == d.stage && k < 8
    ensures CanonicalJson.Same(CoreFields(c)[k].value, CoreFields(d)[k].value)
  {
    var a, b, n := CoreJson(c).fields, CoreJson(d).fields, if c.stage.None? then 0 else 1;
    assert a[n + k] == CoreFields(c)[k] && b[n + k] == CoreFields(d)[k];
    CoreFieldKey(c, d, k);
    FieldsAreTold(a, b, n + k, n + k);
  }

  lemma CoreFieldKey(c: Core, d: Core, k: nat)
    requires k < 8
    ensures CoreFields(c)[k].key == CoreFields(d)[k].key
  {
  }

  lemma {:induction false} CoreFieldsAreTold(c: Core, d: Core)
    requires forall k :: 0 <= k < 8 ==> CanonicalJson.Same(CoreFields(c)[k].value, CoreFields(d)[k].value)
    ensures c.provenance == d.provenance && c.algorithm == d.algorithm
    ensures c.artifacts == d.artifacts && c.surface == d.surface
  {
    var a, b := CoreFields(c), CoreFields(d);
    assert CanonicalJson.Same(a[0].value, b[0].value) && CanonicalJson.Same(a[1].value, b[1].value);
    assert CanonicalJson.Same(a[2].value, b[2].value) && CanonicalJson.Same(a[3].value, b[3].value);
    assert CanonicalJson.Same(a[4].value, b[4].value);
    assert CanonicalJson.Same(a[5].value, b[5].value);
    StringsAreTold(c.artifacts, d.artifacts);
    assert CanonicalJson.Same(a[6].value, b[6].value);
    StringsAreTold(c.surface.operationIds, d.surface.operationIds);
    assert CanonicalJson.Same(a[7].value, b[7].value);
    StringsAreTold(c.surface.discriminants, d.surface.discriminants);
  }

  function PathOf(a: Artifact): Bytes {
    a.path
  }

  function PathsOf(artifacts: seq<Artifact>): seq<Bytes> {
    Ordering.Map(PathOf, artifacts)
  }

  function SortedPaths(artifacts: seq<Artifact>): seq<Bytes> {
    Ordering.Sort(CanonicalJson.KeyLeq, PathsOf(artifacts) + [MANIFEST_PATH])
  }

  function BuiltCore(p: Provenance, artifacts: seq<Artifact>, profile: Profile, surface: Surface): Core {
    Core(
      if profile.C0? then None else Some(RELEASE_STAGE), p, CHECKSUM_ALGORITHM, SortedPaths(artifacts), surface
    )
  }

  /** The built core, field by field: its paths are those of the artifacts and of the manifest, ascending. */
  ghost predicate CoreOf(core: Core, p: Provenance, artifacts: seq<Artifact>, profile: Profile, surface: Surface) {
    && core.provenance == p && core.algorithm == CHECKSUM_ALGORITHM && core.surface == surface
    && (profile == C0 ==> core.stage == None) && (profile == ReleaseCandidate ==> core.stage == Some(RELEASE_STAGE))
    && multiset(core.artifacts) == multiset(PathsOf(artifacts)) + multiset{MANIFEST_PATH}
    && forall i, j :: 0 <= i < j < |core.artifacts| ==>
         core.artifacts[i] == core.artifacts[j] || Ordering.Before(core.artifacts[i], core.artifacts[j])
  }

  lemma {:induction false} BuiltCoreIsExact(p: Provenance, artifacts: seq<Artifact>, profile: Profile, surface: Surface)
    ensures CoreOf(BuiltCore(p, artifacts, profile, surface), p, artifacts, profile, surface)
  {
    var given, sorted := PathsOf(artifacts) + [MANIFEST_PATH], SortedPaths(artifacts);
    CanonicalJson.KeysAreOrdered();
    Ordering.SortIsSortedPermutation(CanonicalJson.KeyLeq, given);
    forall i, j | 0 <= i < j < |sorted| ensures sorted[i] == sorted[j] || Ordering.Before(sorted[i], sorted[j]) {
      assert CanonicalJson.KeyLeq(sorted[i], sorted[j]);
      Ordering.LexMeaning(sorted[i], sorted[j]);
    }
  }

  /** The stream holds the artifacts and the canonical core, in ascending order of their paths. */
  lemma {:induction false} StreamAscends(core: Json, artifacts: seq<Artifact>) returns (entries: seq<Artifact>)
    ensures Stream(Entries(core, artifacts)) == Frames(entries)
    ensures multiset(entries) == multiset(artifacts) + multiset{Artifact(MANIFEST_PATH, CanonicalJson.Canonical(core))}
    ensures forall i, j :: 0 <= i < j < |entries| ==>
      entries[i].path == entries[j].path || Ordering.Before(entries[i].path, entries[j].path)
  {
    var given := Entries(core, artifacts);
    entries := Ordering.Sort(PathLeq, given);
    PathsAreOrdered();
    Ordering.SortIsSortedPermutation(PathLeq, given);
    forall i, j | 0 <= i < j < |entries|
      ensures entries[i].path == entries[j].path || Ordering.Before(entries[i].path, entries[j].path)
    {
      assert PathLeq(entries[i], entries[j]);
      Ordering.LexMeaning(entries[i].path, entries[j].path);
    }
  }

  function Built(p: Provenance, artifacts: seq<Artifact>, profile: Profile, surface: Surface): Manifest {
    var core := BuiltCore(p, artifacts, profile, surface);
    Manifest(core, Checksum(CoreJson(core), artifacts))
  }

  method Build(p: Provenance, artifacts: seq<Artifact>, profile: Profile, surface: Surface) returns (m: Manifest)
    ensures m == Built(p, artifacts, profile, surface)
    ensures CoreOf(m.core, p, artifacts, profile, surface)
  {
    BuiltCoreIsExact(p, artifacts, profile, surface);
    var paths := PathsOf(artifacts) + [MANIFEST_PATH];
    paths := Ordering.Sort(CanonicalJson.KeyLeq, paths);
    var core := Core(if profile.C0? then None else Some(RELEASE_STAGE), p, CHECKSUM_ALGORITHM, paths, surface);
    CoreIsWellFormed(core);
    var checksum := ComputeChecksum(CoreJson(core), artifacts);
    m := Manifest(core, checksum);
  }

  /** `e` names the first place, in the order checked, where the two cores differ. */
  predicate FirstDifference(e: VerifyError, c: Core, d: Core) {
    match e
    case Malformed => c.stage.Some? != d.stage.Some?
    case StageDiffers => c.stage.Some? && d.stage.Some? && c.stage != d.stage
    case ProvenanceDiffers => c.stage == d.stage && c.provenance != d.provenance
    case AlgorithmDiffers =>
      c.algorithm != d.algorithm && c == d.(algorithm := c.algorithm, artifacts := c.artifacts, surface := c.surface)
    case ArtifactsDiffer =>
      c.artifacts != d.artifacts && c == d.(artifacts := c.artifacts, surface := c.surface)
    case OperationsDiffer =>
      c.surface.operationIds != d.surface.operationIds && c == d.(surface := c.surface)
    case DiscriminantsDiffer =>
      && c.surface.operationIds == d.surface.operationIds
      && c.surface.discriminants != d.surface.discriminants
      && c == d.(surface := c.surface)
    case ChecksumDiffers => false
  }

  method VerifyCore(core: Core, p: Provenance, artifacts: seq<Artifact>, profile: Profile, surface: Surface)
    returns (r: Result<(), VerifyError>)
    ensures r.Ok? <==> core == BuiltCore(p, artifacts, profile, surface)
    ensures r.Err? ==> FirstDifference(r.error, core, BuiltCore(p, artifacts, profile, surface))
  {
    if core.stage.None? != profile.C0? {
      return Err(Malformed);
    }
    if profile.ReleaseCandidate? && core.stage.value != RELEASE_STAGE {
      return Err(StageDiffers);
    }
    if core.provenance != p {
      return Err(ProvenanceDiffers);
    }
    if core.algorithm != CHECKSUM_ALGORITHM {
      return Err(AlgorithmDiffers);
    }
    var expectedPaths := Ordering.Sort(CanonicalJson.KeyLeq, PathsOf(artifacts) + [MANIFEST_PATH]);
    if core.artifacts != expectedPaths {
      return Err(ArtifactsDiffer);
    }
    if core.surface.operationIds != surface.operationIds {
      return Err(OperationsDiffer);
    }
    if core.surface.discriminants != surface.discriminants {
      return Err(DiscriminantsDiffer);
    }
    r := Ok(());
  }

  /**
   Accepts exactly the manifest that generation writes. A C0 manifest has no stage field and a release
   manifest has one; a manifest of the other shape does not parse.
   */
  method Verify(m: Manifest, p: Provenance, artifacts: seq<Artifact>, profile: Profile, surface: Surface)
    returns (r: Result<(), VerifyError>)
    ensures r.Ok? <==> m == Built(p, artifacts, profile, surface)
    ensures r == Err(ChecksumDiffers) <==>
      && m.core == BuiltCore(p, artifacts, profile, surface)
      && m.sha256 != Built(p, artifacts, profile, surface).sha256
    ensures r.Err? && r.error != ChecksumDiffers ==>
      FirstDifference(r.error, m.core, BuiltCore(p, artifacts, profile, surface))
  {
    var core := VerifyCore(m.core, p, artifacts, profile, surface);
    if core.Err? {
      return core;
    }
    CoreIsWellFormed(m.core);
    var expected := ComputeChecksum(CoreJson(m.core), artifacts);
    if m.sha256 != expected {
      return Err(ChecksumDiffers);
    }
    r := Ok(());
  }

  /**
   One checksum for two cores with artifacts: the same core and the same artifacts, or a collision on the
   chains of their two streams.
   */
  lemma ChecksumTellsCore(c: Core, a: seq<Artifact>, d: Core, b: seq<Artifact>) returns (m: nat, n: nat)
    requires Publishable(a) && Publishable(b) && Checksum(CoreJson(c), a) == Checksum(CoreJson(d), b)
    ensures
      || (c == d && multiset(a) == multiset(b))
      || Sha256.Exposes(Stream(Entries(CoreJson(c), a)), Stream(Entries(CoreJson(d), b)), m, n)
  {
    CoreIsWellFormed(c);
    CoreIsWellFormed(d);
    m, n := ChecksumTellsManifest(CoreJson(c), a, CoreJson(d), b);
    if CanonicalJson.Same(CoreJson(c), CoreJson(d)) {
      CoreIsTold(c, d);
    }
  }

  /**
   A manifest that verifies against two artifact sets: they are one set, or their two streams make the
   compression function collide at blocks `m` and `n` of their own chains.
   */
  lemma {:induction false} VerifiedManifestFixesArtifacts(
      p: Provenance, a: seq<Artifact>, b: seq<Artifact>, profile: Profile, surface: Surface) returns (m: nat, n: nat)
    requires Publishable(a) && Publishable(b)
    requires Built(p, a, profile, surface) == Built(p, b, profile, surface)
    ensures var core := CoreJson(BuiltCore(p, a, profile, surface));
      || multiset(a) == multiset(b)
      || Sha256.Exposes(Stream(Entries(core, a)), Stream(Entries(core, b)), m, n)
  {
    var core := BuiltCore(p, a, profile, surface);
    CoreIsWellFormed(core);
    m, n := ChecksumTellsManifest(CoreJson(core), a, CoreJson(core), b);
  }

  /** Generation ignores the order in which the artifacts are listed. */
  lemma {:induction false} BuildIgnoresOrder(p: Provenance, a: seq<Artifact>, b: seq<Artifact>, profile: Profile, surface: Surface)
    requires Publishable(a) && multiset(a) == multiset(b)
    ensures Built(p, a, profile, surface) == Built(p, b, profile, surface)
  {
    SortedPathsIgnoreOrder(a, b);
    EntriesIgnoreOrder(CoreJson(BuiltCore(p, a, profile, surface)), a, b);
  }

  lemma {:induction false} SortedPathsIgnoreOrder(a: seq<Artifact>, b: seq<Artifact>)
    requires Publishable(a) && multiset(a) == multiset(b)
    ensures SortedPaths(a) == SortedPaths(b)
  {
    var s, t := a + [Artifact(MANIFEST_PATH, [])], b + [Artifact(MANIFEST_PATH, [])];
    assert PathsOf(s) == PathsOf(a) + [MANIFEST_PATH] && PathsOf(t) == PathsOf(b) + [MANIFEST_PATH];
    PathsAreOrdered();
    Ordering.SortMaps(PathLeq, CanonicalJson.KeyLeq, PathOf, s);
    Ordering.SortMaps(PathLeq, CanonicalJson.KeyLeq, PathOf, t);
    assert Ordering.Antisymmetric(PathLeq, s);
    Ordering.SortForgetsOrder(PathLeq, s, t);
  }
}
