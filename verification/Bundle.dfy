/**
 The checkpoint bundle: magic, an eight-byte big-endian manifest length, the manifest, and the
 payloads in manifest order.
 */
module Bundle {
  import opened Prelude
  import opened ClaimKeys

  newtype byte = x: int | 0 <= x < 256
  type Bytes = seq<byte>

  /** "HFJOB1" and a newline. */
  const MAGIC: Bytes := [72, 70, 74, 79, 66, 49, 10]
  const LENGTH_BYTES: nat := 8
  const MIN_MANIFEST: nat := 2
  const MAX_MANIFEST: nat := 16 * 1024 * 1024

  datatype ResumeMode = Exact | Boundary | Restart | Unsupported

  datatype AdapterSpec = AdapterSpec(name: string, version: nat, resumeMode: ResumeMode)

  datatype PayloadRef = PayloadRef(path: string, bytes: nat, sha256: string)

  datatype Payload = Payload(path: string, content: Bytes)

  /** Everything in a manifest but its payload list; timestamps and metadata stay opaque. */
  datatype Meta = Meta(
    run: string, attempt: string, adapter: AdapterSpec, plan: string,
    boundary: nat, previous: Option<string>, createdAt: int)

  datatype Manifest = Manifest(meta: Meta, payloads: seq<PayloadRef>)

  datatype Verified = Verified(manifest: Manifest, payloads: map<string, Bytes>)

  /**
   SHA-256, the canonical JSON text of a manifest with its parser, and the longest payload path that
   the manifest validation accepts: TypeScript stops at 1024 characters, Python has no limit.
   */
  datatype Codec = Codec(
    sha: Bytes -> string, render: Manifest -> Bytes, parse: Bytes -> Option<Manifest>, pathLimit: Option<nat>)

  ghost predicate RoundTrips(codec: Codec) {
    forall m :: codec.parse(codec.render(m)) == Some(m)
  }

  // ---------------------------------------------------------------------------------------------
  // Payload paths

  /** The components of a path between its separators. */
  function Split(path: string): (parts: seq<string>)
    ensures |parts| >= 1
  {
    if path == "" then [""]
    else
      var rest := Split(path[1..]);
      if path[0] == '/' then [""] + rest else [[path[0]] + rest[0]] + rest[1..]
  }

  predicate SafePath(path: string) {
    && '\\' !in path
    && forall i :: 0 <= i < |Split(path)| ==> Split(path)[i] !in ["", ".", ".."]
  }

  /** A stretch of the path between two separators, or between one and an end. */
  ghost predicate Part(path: string, i: nat, j: nat) {
    && i <= j <= |path| && (i == 0 || path[i - 1] == '/') && (j == |path| || path[j] == '/')
    && '/' !in path[i..j]
  }

  lemma PartShifts(path: string, i: nat, j: nat)
    requires path != "" && 1 <= i
    ensures j >= 1 && Part(path, i, j) && (i > 1 || path[0] == '/') <==>
              j >= 1 && Part(path[1..], i - 1, j - 1) && (i > 1 || path[0] == '/')
    ensures 1 <= i <= j <= |path| ==> path[i..j] == path[1..][i - 1..j - 1]
  {
    if 1 <= i <= j <= |path| {
      assert forall k :: 0 <= k < j - i ==> path[i..j][k] == path[i + k] && path[1..][i - 1..j - 1][k] == path[i + k];
      assert path[i..j] == path[1..][i - 1..j - 1];
    }
  }

  lemma StartsInside(path: string, j: nat)
    requires Part(path, 0, j) && j > 0
    ensures path[0] != '/'
  {
    assert path[0..j][0] == path[0];
  }

  /** The first component is the stretch up to the first separator. */
  lemma {:induction false} FirstStretch(path: string, j: nat)
    requires Part(path, 0, j)
    ensures path[..j] == Split(path)[0]
  {
    if j > 0 { StartsInside(path, j); }
    if path != "" && path[0] != '/' {
      assert j >= 1;
      assert path[0..j] == [path[0]] + path[1..][0..j - 1];
      assert '/' !in path[1..][0..j - 1] by {
        forall c | c in path[1..][0..j - 1] ensures c in path[0..j] {}
      }
      assert Part(path[1..], 0, j - 1);
      FirstStretch(path[1..], j - 1);
    } else {
      assert path[..j] == "";
    }
  }

  lemma {:induction false} FirstComponent(path: string) returns (j: nat)
    ensures Part(path, 0, j) && path[..j] == Split(path)[0]
  {
    j := 0;
    if path != "" && path[0] != '/' {
      var k := FirstComponent(path[1..]);
      j := k + 1;
      assert path[0..j] == [path[0]] + path[1..][0..k];
      FirstStretch(path, j);
    }
  }

  /** The other components are the stretches after a separator. */
  lemma {:induction false} LaterStretch(path: string, i: nat, j: nat)
    requires Part(path, i, j) && i > 0
    ensures path[i..j] in Split(path)[1..]
  {
    var rest := path[1..];
    PartShifts(path, i, j);
    if i == 1 {
      FirstStretch(rest, j - 1);
      assert Split(path)[1..] == Split(rest);
    } else {
      LaterStretch(rest, i - 1, j - 1);
      assert Split(path)[1..] == if path[0] == '/' then Split(rest) else Split(rest)[1..];
      if path[0] == '/' { assert path[i..j] in Split(rest); }
    }
  }

  lemma {:induction false} LaterComponent(path: string, part: string) returns (i: nat, j: nat)
    requires part in Split(path)[1..]
    ensures Part(path, i, j) && i > 0 && path[i..j] == part
  {
    var rest := path[1..];
    assert Split(path)[1..] == if path[0] == '/' then Split(rest) else Split(rest)[1..];
    if path[0] == '/' && part == Split(rest)[0] {
      var k := FirstComponent(rest);
      i, j := 1, k + 1;
    } else {
      assert part in Split(rest)[1..];
      var a, b := LaterComponent(rest, part);
      i, j := a + 1, b + 1;
    }
    PartShifts(path, i, j);
  }

  /** A safe path has no backslash and no empty or relative component, wherever its separators are. */
  lemma SafePathMeans(path: string)
    ensures SafePath(path) <==>
              && '\\' !in path
              && forall i: nat, j: nat :: Part(path, i, j) ==>
                   path[i..j] != "" && path[i..j] != "." && path[i..j] != ".."
  {
    if SafePath(path) {
      forall i: nat, j: nat | Part(path, i, j) ensures path[i..j] in Split(path) {
        if i == 0 { FirstStretch(path, j); } else { LaterStretch(path, i, j); }
      }
    } else {
      forall k | 0 <= k < |Split(path)|
        ensures exists i: nat, j: nat :: Part(path, i, j) && path[i..j] == Split(path)[k]
      {
        if k == 0 {
          var j := FirstComponent(path);
        } else {
          assert Split(path)[k] == Split(path)[1..][k - 1];
          var i, j := LaterComponent(path, Split(path)[k]);
        }
      }
    }
  }

  predicate StrictlyAscending(refs: seq<PayloadRef>) {
    forall i :: 0 < i < |refs| ==> LexLess(refs[i - 1].path, refs[i].path)
  }

  predicate PathOk(codec: Codec, path: string) {
    SafePath(path) && (codec.pathLimit.Some? ==> |path| <= codec.pathLimit.value)
  }

  predicate ManifestOk(codec: Codec, m: Manifest) {
    (forall i :: 0 <= i < |m.payloads| ==> PathOk(codec, m.payloads[i].path)) && StrictlyAscending(m.payloads)
  }

  function ParseManifest(codec: Codec, raw: Bytes): Option<Manifest> {
    match codec.parse(raw)
    case None => None
    case Some(m) => if ManifestOk(codec, m) then Some(m) else None
  }

  // ---------------------------------------------------------------------------------------------
  // Big-endian lengths

  function BigEndian(n: nat, width: nat): (b: Bytes)
    ensures |b| == width
    decreases width
  {
    if width == 0 then [] else BigEndian(n / 256, width - 1) + [(n % 256) as byte]
  }

  function Value(b: Bytes): nat {
    if b == [] then 0 else Value(b[..|b| - 1]) * 256 + b[|b| - 1] as nat
  }

  function Pow256(k: nat): nat {
    if k == 0 then 1 else 256 * Pow256(k - 1)
  }

  lemma {:induction false} ValueOfBigEndian(n: nat, width: nat)
    requires n < Pow256(width)
    ensures Value(BigEndian(n, width)) == n
  {
    if width > 0 {
      ValueOfBigEndian(n / 256, width - 1);
      assert BigEndian(n, width)[..width - 1] == BigEndian(n / 256, width - 1);
    }
  }

  lemma {:induction false} BigEndianOfValue(b: Bytes)
    ensures BigEndian(Value(b), |b|) == b && Value(b) < Pow256(|b|)
  {
    if b != [] {
      BigEndianOfValue(b[..|b| - 1]);
      assert b == b[..|b| - 1] + [b[|b| - 1]];
    }
  }

  lemma ManifestLengthsFit()
    ensures MAX_MANIFEST < Pow256(LENGTH_BYTES)
  {
    assert Pow256(4) == 4_294_967_296;
    assert Pow256(8) == 4_294_967_296 * Pow256(4);
  }

  // ---------------------------------------------------------------------------------------------
  // The layout of a bundle

  function Flatten(contents: seq<Bytes>): Bytes {
    if contents == [] then [] else Flatten(contents[..|contents| - 1]) + contents[|contents| - 1]
  }

  /** The contents have the lengths and digests that the manifest lists. */
  ghost predicate Matches(codec: Codec, refs: seq<PayloadRef>, contents: seq<Bytes>) {
    && |contents| == |refs|
    && forall i :: 0 <= i < |refs| ==> MatchesOne(codec, refs[i], contents[i])
  }

  predicate MatchesOne(codec: Codec, ref: PayloadRef, content: Bytes) {
    |content| == ref.bytes && codec.sha(content) == ref.sha256
  }

  function Header(length: nat): Bytes {
    MAGIC + BigEndian(length, LENGTH_BYTES)
  }

  ghost predicate Layout(codec: Codec, bytes: Bytes, raw: Bytes, m: Manifest, contents: seq<Bytes>) {
    && bytes == Header(|raw|) + raw + Flatten(contents)
    && MIN_MANIFEST <= |raw| <= MAX_MANIFEST
    && ParseManifest(codec, raw) == Some(m)
    && Matches(codec, m.payloads, contents)
  }

  function PayloadMap(refs: seq<PayloadRef>, contents: seq<Bytes>): map<string, Bytes>
    requires |refs| == |contents|
  {
    if refs == [] then map[]
    else PayloadMap(refs[..|refs| - 1], contents[..|refs| - 1])[refs[|refs| - 1].path := contents[|refs| - 1]]
  }

  /** What a byte string means as a bundle, if it is one. */
  ghost function Decode(codec: Codec, bytes: Bytes): Option<Verified> {
    if exists raw, m, contents :: Layout(codec, bytes, raw, m, contents) then
      var raw, m, contents :| Layout(codec, bytes, raw, m, contents);
      Some(Verified(m, PayloadMap(m.payloads, contents)))
    else None
  }

  lemma {:induction false} FlattenPrefix(contents: seq<Bytes>, i: nat)
    requires i < |contents|
    ensures Flatten(contents[..i]) + contents[i] == Flatten(contents[..i + 1])
    ensures Flatten(contents[..i + 1]) <= Flatten(contents)
  {
    assert contents[..i + 1][..i] == contents[..i];
    if i + 1 == |contents| {
      assert contents[..i + 1] == contents;
    } else {
      FlattenPrefix(contents[..|contents| - 1], i);
      assert contents[..|contents| - 1][..i + 1] == contents[..i + 1];
    }
  }

  /** Contents of known lengths can be read back from their concatenation in one way only. */
  lemma {:induction false} FlattenInjective(codec: Codec, refs: seq<PayloadRef>, a: seq<Bytes>, b: seq<Bytes>)
    requires Matches(codec, refs, a) && Matches(codec, refs, b) && Flatten(a) == Flatten(b)
    ensures a == b
  {
    if refs != [] {
      var n := |refs| - 1;
      assert MatchesOne(codec, refs[n], a[n]) && MatchesOne(codec, refs[n], b[n]);
      var fa, fb := Flatten(a[..n]), Flatten(b[..n]);
      assert |fa| == |fb|;
      assert fa == Flatten(a)[..|fa|] == fb;
      assert a[n] == Flatten(a)[|fa|..] == b[n];
      forall i | 0 <= i < n
        ensures MatchesOne(codec, refs[..n][i], a[..n][i]) && MatchesOne(codec, refs[..n][i], b[..n][i])
      {
        assert MatchesOne(codec, refs[i], a[i]) && MatchesOne(codec, refs[i], b[i]);
      }
      FlattenInjective(codec, refs[..n], a[..n], b[..n]);
      assert a == a[..n] + [a[n]] && b == b[..n] + [b[n]];
    }
  }

  /** The header fixes the length of the manifest, so the manifest bytes can be cut out. */
  lemma HeaderReads(bytes: Bytes, raw: Bytes, rest: Bytes)
    requires bytes == Header(|raw|) + raw + rest && |raw| <= MAX_MANIFEST
    ensures |bytes| >= |MAGIC| + LENGTH_BYTES + |raw|
    ensures bytes[..|MAGIC|] == MAGIC
    ensures Value(bytes[|MAGIC|..|MAGIC| + LENGTH_BYTES]) == |raw|
    ensures bytes[|MAGIC| + LENGTH_BYTES..|MAGIC| + LENGTH_BYTES + |raw|] == raw
    ensures bytes[|MAGIC| + LENGTH_BYTES + |raw|..] == rest
  {
    ManifestLengthsFit();
    ValueOfBigEndian(|raw|, LENGTH_BYTES);
    assert bytes[|MAGIC|..|MAGIC| + LENGTH_BYTES] == BigEndian(|raw|, LENGTH_BYTES);
  }

  /** Decoding is unique: a byte string is a bundle in at most one way. */
  lemma LayoutUnique(
      codec: Codec, bytes: Bytes, r1: Bytes, m1: Manifest, c1: seq<Bytes>, r2: Bytes, m2: Manifest, c2: seq<Bytes>)
    requires Layout(codec, bytes, r1, m1, c1) && Layout(codec, bytes, r2, m2, c2)
    ensures r1 == r2 && m1 == m2 && c1 == c2
  {
    HeaderReads(bytes, r1, Flatten(c1));
    HeaderReads(bytes, r2, Flatten(c2));
    assert r1 == r2;
    FlattenInjective(codec, m1.payloads, c1, c2);
  }

  lemma DecodeIs(codec: Codec, bytes: Bytes, raw: Bytes, m: Manifest, contents: seq<Bytes>)
    requires Layout(codec, bytes, raw, m, contents)
    ensures Decode(codec, bytes) == Some(Verified(m, PayloadMap(m.payloads, contents)))
  {
    var r2, m2, c2 :| Layout(codec, bytes, r2, m2, c2)
                      && Decode(codec, bytes) == Some(Verified(m2, PayloadMap(m2.payloads, c2)));
    LayoutUnique(codec, bytes, raw, m, contents, r2, m2, c2);
  }

  // ---------------------------------------------------------------------------------------------
  // Creating bundles

  function RefFor(codec: Codec, p: Payload): PayloadRef {
    PayloadRef(p.path, |p.content|, codec.sha(p.content))
  }

  function Refs(codec: Codec, payloads: seq<Payload>): seq<PayloadRef> {
    seq(|payloads|, i requires 0 <= i < |payloads| => RefFor(codec, payloads[i]))
  }

  function Contents(payloads: seq<Payload>): seq<Bytes> {
    seq(|payloads|, i requires 0 <= i < |payloads| => payloads[i].content)
  }

  /** Builds a bundle from payloads that the caller has already put in its own order. */
  function Create(codec: Codec, meta: Meta, payloads: seq<Payload>): Option<(Bytes, Manifest)> {
    var m := Manifest(meta, Refs(codec, payloads));
    if !ManifestOk(codec, m) || |codec.render(m)| >= Pow256(LENGTH_BYTES) then None
    else Some((Header(|codec.render(m)|) + codec.render(m) + Flatten(Contents(payloads)), m))
  }

  /** The path-to-bytes map of the payloads that went into a bundle. */
  function Saved(payloads: seq<Payload>): map<string, Bytes> {
    if payloads == [] then map[]
    else Saved(payloads[..|payloads| - 1])[payloads[|payloads| - 1].path := payloads[|payloads| - 1].content]
  }

  lemma {:induction false} SavedIsPayloadMap(codec: Codec, payloads: seq<Payload>)
    ensures PayloadMap(Refs(codec, payloads), Contents(payloads)) == Saved(payloads)
  {
    if payloads != [] {
      var n := |payloads| - 1;
      SavedIsPayloadMap(codec, payloads[..n]);
      assert Refs(codec, payloads)[..n] == Refs(codec, payloads[..n]);
      assert Contents(payloads)[..n] == Contents(payloads[..n]);
    }
  }

  /** Round trip: a created bundle decodes to its own manifest and payload bytes. */
  lemma CreatedDecodes(codec: Codec, meta: Meta, payloads: seq<Payload>)
    requires RoundTrips(codec) && Create(codec, meta, payloads).Some?
    requires MIN_MANIFEST <= |codec.render(Create(codec, meta, payloads).value.1)| <= MAX_MANIFEST
    ensures Decode(codec, Create(codec, meta, payloads).value.0)
         == Some(Verified(Create(codec, meta, payloads).value.1, Saved(payloads)))
    ensures Create(codec, meta, payloads).value.1.meta == meta
  {
    var (bytes, m) := Create(codec, meta, payloads).value;
    forall i | 0 <= i < |m.payloads| ensures MatchesOne(codec, m.payloads[i], Contents(payloads)[i]) {
    }
    DecodeIs(codec, bytes, codec.render(m), m, Contents(payloads));
    SavedIsPayloadMap(codec, payloads);
  }

  lemma DecodedLength(codec: Codec, bytes: Bytes)
    requires Decode(codec, bytes).Some?
    ensures |bytes| >= |MAGIC| + LENGTH_BYTES
    ensures MIN_MANIFEST <= Value(bytes[|MAGIC|..|MAGIC| + LENGTH_BYTES]) <= MAX_MANIFEST
  {
    var raw, m, contents :| Layout(codec, bytes, raw, m, contents);
    HeaderReads(bytes, raw, Flatten(contents));
  }

  /** A created bundle decodes at all only if its manifest has an acceptable length. */
  lemma CreatedDecodesOnlyIf(codec: Codec, meta: Meta, payloads: seq<Payload>)
    requires Create(codec, meta, payloads).Some? && Decode(codec, Create(codec, meta, payloads).value.0).Some?
    ensures MIN_MANIFEST <= |codec.render(Create(codec, meta, payloads).value.1)| <= MAX_MANIFEST
  {
    var (bytes, m) := Create(codec, meta, payloads).value;
    var raw := codec.render(m);
    DecodedLength(codec, bytes);
    assert bytes == Header(|raw|) + (raw + Flatten(Contents(payloads)));
    HeaderLength(bytes, |raw|, raw + Flatten(Contents(payloads)));
  }

  lemma HeaderLength(bytes: Bytes, length: nat, rest: Bytes)
    requires bytes == Header(length) + rest && length < Pow256(LENGTH_BYTES)
    ensures |bytes| >= |MAGIC| + LENGTH_BYTES && Value(bytes[|MAGIC|..|MAGIC| + LENGTH_BYTES]) == length
  {
    ValueOfBigEndian(length, LENGTH_BYTES);
    assert bytes[|MAGIC|..|MAGIC| + LENGTH_BYTES] == BigEndian(length, LENGTH_BYTES);
  }

  // ---------------------------------------------------------------------------------------------
  // When creation succeeds

  lemma {:induction false} LexTransitive(a: string, b: string, c: string)
    requires LexLess(a, b) && LexLess(b, c)
    ensures LexLess(a, c)
  {
    if a != [] && b != [] && c != [] && a[0] == b[0] == c[0] {
      LexTransitive(a[1..], b[1..], c[1..]);
    }
  }

  lemma {:induction false} LexAsymmetric(a: string, b: string)
    ensures !(LexLess(a, b) && LexLess(b, a))
  {
    if a != [] && b != [] && a[0] == b[0] {
      LexAsymmetric(a[1..], b[1..]);
    }
  }

  lemma {:induction false} AscendingPairwise(refs: seq<PayloadRef>, i: nat, j: nat)
    requires StrictlyAscending(refs) && i < j < |refs|
    ensures LexLess(refs[i].path, refs[j].path)
  {
    if i + 1 < j {
      AscendingPairwise(refs, i, j - 1);
      LexTransitive(refs[i].path, refs[j - 1].path, refs[j].path);
    }
  }

  /** The two orders agree on every pair of the paths. */
  ghost predicate OrdersAgree(less: (string, string) -> bool, payloads: seq<Payload>) {
    forall i, j :: 0 <= i < |payloads| && 0 <= j < |payloads| ==>
      (less(payloads[i].path, payloads[j].path) <==> LexLess(payloads[i].path, payloads[j].path))
  }

  ghost predicate SortedBy(less: (string, string) -> bool, payloads: seq<Payload>) {
    && (forall i, j :: 0 <= i < j < |payloads| ==> less(payloads[i].path, payloads[j].path))
    && (forall i, j :: 0 <= i <= j < |payloads| ==> !less(payloads[j].path, payloads[i].path))
  }

  /**
   Both languages sort the payloads in an order of their own and then insist on code-unit order.
   Creation from safe, distinct paths therefore succeeds exactly when the two orders agree on them.
   */
  lemma CreationExact(codec: Codec, meta: Meta, less: (string, string) -> bool, payloads: seq<Payload>)
    requires SortedBy(less, payloads) && forall i :: 0 <= i < |payloads| ==> PathOk(codec, payloads[i].path)
    requires |codec.render(Manifest(meta, Refs(codec, payloads)))| < Pow256(LENGTH_BYTES)
    ensures Create(codec, meta, payloads).Some? <==> OrdersAgree(less, payloads)
  {
    var refs := Refs(codec, payloads);
    if StrictlyAscending(refs) {
      forall i, j | 0 <= i < |payloads| && 0 <= j < |payloads|
        ensures less(payloads[i].path, payloads[j].path) <==> LexLess(payloads[i].path, payloads[j].path)
      {
        if i < j { AscendingPairwise(refs, i, j); }
        if j < i { AscendingPairwise(refs, j, i); }
        LexAsymmetric(payloads[i].path, payloads[j].path);
      }
    }
    if OrdersAgree(less, payloads) {
      forall i | 0 < i < |refs| ensures LexLess(refs[i - 1].path, refs[i].path) {
        assert less(payloads[i - 1].path, payloads[i].path);
      }
    }
  }

  /** Python's order of paths compares them component by component. */
  predicate PartsLess(a: seq<string>, b: seq<string>) {
    if a == [] || b == [] then a == [] && b != []
    else LexLess(a[0], b[0]) || (a[0] == b[0] && PartsLess(a[1..], b[1..]))
  }

  predicate PathLess(a: string, b: string) {
    PartsLess(Split(a), Split(b))
  }

  /**
   Where the names first differ, one has a separator and the other a character below it: the component
   that ends there is the smaller one, but the name is the greater one.
   */
  predicate Clash(a: string, b: string) {
    if a == [] || b == [] then false
    else if a[0] == b[0] then Clash(a[1..], b[1..])
    else (a[0] == '/' && b[0] < '/') || (b[0] == '/' && a[0] < '/')
  }

  /** Component order and text order agree on a pair of names exactly unless the names clash. */
  lemma {:induction false} PathOrderExact(a: string, b: string)
    ensures (PathLess(a, b) <==> LexLess(a, b)) <==> !Clash(a, b)
  {
    if a == [] || b == [] {
      EmptyName(a, b);
    } else if a[0] == b[0] {
      PathOrderExact(a[1..], b[1..]);
      SameFirst(a, b);
    } else {
      OtherFirst(a, b);
    }
  }

  lemma EmptyName(a: string, b: string)
    requires a == [] || b == []
    ensures PathLess(a, b) <==> LexLess(a, b)
  {
    assert Split("")[1..] == [];
    if a != [] {
      FirstPart(a);
      assert PartsLess(Split(a)[1..], []) == false;
    }
    if b != [] {
      FirstPart(b);
      assert b[0] == '/' ==> PartsLess([], Split(b)[1..]);
    }
  }

  /** The first component is empty before a separator, and otherwise starts with the first character. */
  lemma FirstPart(a: string)
    requires a != []
    ensures if a[0] == '/' then Split(a)[0] == "" && Split(a)[1..] == Split(a[1..])
            else Split(a)[0] != "" && Split(a)[0][0] == a[0]
  {
  }

  lemma OtherFirst(a: string, b: string)
    requires a != [] && b != [] && a[0] != b[0]
    ensures PathLess(a, b) <==> a[0] == '/' || (b[0] != '/' && a[0] < b[0])
    ensures LexLess(a, b) <==> a[0] < b[0]
  {
    FirstPart(a);
    FirstPart(b);
  }

  /** A common first character does not affect either order. */
  lemma SameFirst(a: string, b: string)
    requires a != [] && b != [] && a[0] == b[0]
    ensures PathLess(a, b) <==> PathLess(a[1..], b[1..])
    ensures LexLess(a, b) <==> LexLess(a[1..], b[1..])
  {
    var x, y := Split(a[1..]), Split(b[1..]);
    if a[0] == '/' {
      assert Split(a)[1..] == x && Split(b)[1..] == y;
    } else {
      assert Split(a)[1..] == x[1..] && Split(b)[1..] == y[1..];
      assert Split(a)[0][1..] == x[0] && Split(b)[0][1..] == y[0];
    }
  }

  /** No two of the files have clashing names. */
  ghost predicate Clashless(payloads: seq<Payload>) {
    forall i, j :: 0 <= i < |payloads| && 0 <= j < |payloads| ==> !Clash(payloads[i].path, payloads[j].path)
  }

  /** Python bundles the files of a directory exactly when no two names clash. */
  lemma PythonCreationExact(codec: Codec, meta: Meta, payloads: seq<Payload>)
    requires SortedBy(PathLess, payloads) && forall i :: 0 <= i < |payloads| ==> PathOk(codec, payloads[i].path)
    requires |codec.render(Manifest(meta, Refs(codec, payloads)))| < Pow256(LENGTH_BYTES)
    ensures Create(codec, meta, payloads).Some? <==> Clashless(payloads)
  {
    CreationExact(codec, meta, PathLess, payloads);
    forall i, j | 0 <= i < |payloads| && 0 <= j < |payloads|
      ensures (PathLess(payloads[i].path, payloads[j].path) <==> LexLess(payloads[i].path, payloads[j].path))
              <==> !Clash(payloads[i].path, payloads[j].path)
    {
      PathOrderExact(payloads[i].path, payloads[j].path);
    }
  }

  lemma NamesOfClash()
    ensures Split("a/b") == ["a", "b"] && Split("a.txt") == ["a.txt"]
    ensures Clash("a/b", "a.txt") && !Clash("a.txt", "a.txt") && !Clash("a/b", "a/b")
  {
    assert "a/b"[1..] == "/b" && "a.txt"[1..] == ".txt";
    assert Clash("/b", ".txt");
    assert Split("b") == ["b"] by { assert "b"[1..] == ""; assert ['b'] + "" == "b"; }
    assert Split("/b") == ["", "b"] by { assert "/b"[1..] == "b"; }
    assert Split("t") == ["t"] by { assert "t"[1..] == ""; assert ['t'] + "" == "t"; }
    assert Split("xt") == ["xt"] by { assert "xt"[1..] == "t"; assert ['x'] + "t" == "xt"; }
    assert Split("txt") == ["txt"] by { assert "txt"[1..] == "xt"; assert ['t'] + "xt" == "txt"; }
    assert Split(".txt") == [".txt"] by { assert ".txt"[1..] == "txt"; assert ['.'] + "txt" == ".txt"; }
    assert ['a'] + "" == "a" && ['a'] + ".txt" == "a.txt";
  }

  /** Two ordinary file names, in the order of the walk, of which Python makes no bundle. */
  lemma PythonCannotBundle(codec: Codec, meta: Meta, x: Bytes, y: Bytes)
    ensures SafePath("a/b") && SafePath("a.txt")
    ensures SortedBy(PathLess, [Payload("a/b", x), Payload("a.txt", y)])
    ensures Create(codec, meta, [Payload("a/b", x), Payload("a.txt", y)]) == None
  {
    var payloads := [Payload("a/b", x), Payload("a.txt", y)];
    NamesOfClash();
    ClashingOrder();
    hide PathLess, LexLess, Split;
    assert Refs(codec, payloads)[0].path == "a/b" && Refs(codec, payloads)[1].path == "a.txt";
  }

  lemma ClashingOrder()
    ensures PathLess("a/b", "a.txt") && !PathLess("a.txt", "a/b") && !LexLess("a/b", "a.txt")
    ensures !PathLess("a/b", "a/b") && !PathLess("a.txt", "a.txt")
  {
    NamesOfClash();
    assert "a/b"[1..] == "/b" && "a.txt"[1..] == ".txt" && "a"[1..] == "";
    assert !LexLess("a/b", "a.txt") by { assert !LexLess("/b", ".txt"); }
    assert LexLess("a", "a.txt") by { assert LexLess("", ".txt"); }
    LexAsymmetric("a", "a.txt");
    LexAsymmetric("a", "a");
    LexAsymmetric("b", "b");
    LexAsymmetric("a.txt", "a.txt");
  }

  // ---------------------------------------------------------------------------------------------
  // The whole-buffer verifier

  /** Slices a bundle apart, checking every length and digest on the way. */
  method VerifyBundle(codec: Codec, bytes: Bytes) returns (r: Option<Verified>)
    ensures r == Decode(codec, bytes)
  {
    var start := |MAGIC| + LENGTH_BYTES;
    if |bytes| < start || bytes[..|MAGIC|] != MAGIC {
      NoLayout(codec, bytes);
      return None;
    }
    var length := Value(bytes[|MAGIC|..start]);
    if length < MIN_MANIFEST || length > MAX_MANIFEST || start + length > |bytes| {
      NoLayout(codec, bytes);
      return None;
    }
    var parsed := ParseManifest(codec, bytes[start..start + length]);
    if parsed.None? {
      NoLayout(codec, bytes);
      return None;
    }
    var payloads := VerifyPayloads(codec, bytes, bytes[start..start + length], parsed.value);
    r := if payloads.None? then None else Some(Verified(parsed.value, payloads.value));
  }

  /** The loop over the payloads, which must use up exactly the bytes after the manifest. */
  method VerifyPayloads(codec: Codec, bytes: Bytes, raw: Bytes, m: Manifest) returns (r: Option<map<string, Bytes>>)
    requires ReadSoFar(codec, bytes, raw, m, [])
    ensures Decode(codec, bytes) == if r.None? then None else Some(Verified(m, r.value))
  {
    var payloads: map<string, Bytes> := map[];
    var offset := |MAGIC| + LENGTH_BYTES + |raw|;
    ghost var contents: seq<Bytes> := [];
    ReadIsInside(codec, bytes, raw, m, contents);
    assert Flatten([]) == [] && PayloadMap(m.payloads[..0], []) == map[];
    hide ReadSoFar, Flatten, PayloadMap, Decode;
    for i := 0 to |m.payloads|
      invariant |contents| == i && ReadSoFar(codec, bytes, raw, m, contents)
      invariant offset == |MAGIC| + LENGTH_BYTES + |raw| + |Flatten(contents)| <= |bytes|
      invariant payloads == PayloadMap(m.payloads[..i], contents)
    {
      var ref := m.payloads[i];
      var end := offset + ref.bytes;
      if end > |bytes| || codec.sha(bytes[offset..end]) != ref.sha256 {
        Stuck(codec, bytes, raw, m, contents);
        return None;
      }
      var content := bytes[offset..end];
      payloads := payloads[ref.path := content];
      OneMoreRead(codec, bytes, raw, m, contents, content);
      contents := contents + [content];
      offset := end;
    }
    if offset != |bytes| {
      NothingTrails(codec, bytes, raw, m, contents);
      return None;
    }
    assert m.payloads[..|m.payloads|] == m.payloads;
    AllRead(codec, bytes, raw, m, contents);
    r := Some(payloads);
  }

  lemma ReadIsInside(codec: Codec, bytes: Bytes, raw: Bytes, m: Manifest, done: seq<Bytes>)
    requires ReadSoFar(codec, bytes, raw, m, done)
    ensures |MAGIC| + LENGTH_BYTES + |raw| + |Flatten(done)| <= |bytes|
  {
    hide Flatten;
  }

  lemma OneMoreRead(codec: Codec, bytes: Bytes, raw: Bytes, m: Manifest, done: seq<Bytes>, content: Bytes)
    requires ReadSoFar(codec, bytes, raw, m, done) && |done| < |m.payloads|
    requires MatchesOne(codec, m.payloads[|done|], content)
    requires var from := |MAGIC| + LENGTH_BYTES + |raw| + |Flatten(done)|;
             from + |content| <= |bytes| && content == bytes[from..from + |content|]
    ensures ReadSoFar(codec, bytes, raw, m, done + [content])
    ensures Flatten(done + [content]) == Flatten(done) + content
    ensures PayloadMap(m.payloads[..|done| + 1], done + [content])
         == PayloadMap(m.payloads[..|done|], done)[m.payloads[|done|].path := content]
  {
    var base := |MAGIC| + LENGTH_BYTES + |raw|;
    var rest := bytes[base..];
    assert content == rest[|Flatten(done)|..|Flatten(done)| + |content|];
    OneMorePayload(codec, rest, m.payloads, done, content);
  }

  lemma OneMorePayload(codec: Codec, rest: Bytes, refs: seq<PayloadRef>, done: seq<Bytes>, content: Bytes)
    requires PayloadsRead(codec, rest, refs, done) && |done| < |refs|
    requires MatchesOne(codec, refs[|done|], content) && |Flatten(done)| + |content| <= |rest|
    requires content == rest[|Flatten(done)|..|Flatten(done)| + |content|]
    ensures PayloadsRead(codec, rest, refs, done + [content])
    ensures Flatten(done + [content]) == Flatten(done) + content
    ensures PayloadMap(refs[..|done| + 1], done + [content])
              == PayloadMap(refs[..|done|], done)[refs[|done|].path := content]
  {
    var n := |done|;
    assert (done + [content])[..n] == done && refs[..n + 1][..n] == refs[..n];
    forall i | 0 <= i < n + 1 ensures MatchesOne(codec, refs[..n + 1][i], (done + [content])[i]) {
      if i < n { assert MatchesOne(codec, refs[..n][i], done[i]); }
    }
  }

  lemma AllRead(codec: Codec, bytes: Bytes, raw: Bytes, m: Manifest, done: seq<Bytes>)
    requires ReadSoFar(codec, bytes, raw, m, done) && |done| == |m.payloads|
    requires |MAGIC| + LENGTH_BYTES + |raw| + |Flatten(done)| == |bytes|
    ensures Decode(codec, bytes) == Some(Verified(m, PayloadMap(m.payloads[..|done|], done)))
  {
    assert m.payloads[..|done|] == m.payloads;
    HeaderIs(bytes, |raw|);
    DecodeIs(codec, bytes, raw, m, done);
  }

  lemma HeaderIs(bytes: Bytes, length: nat)
    requires |bytes| >= |MAGIC| + LENGTH_BYTES && bytes[..|MAGIC|] == MAGIC
    requires Value(bytes[|MAGIC|..|MAGIC| + LENGTH_BYTES]) == length
    ensures bytes == Header(length) + bytes[|MAGIC| + LENGTH_BYTES..]
  {
    BigEndianOfValue(bytes[|MAGIC|..|MAGIC| + LENGTH_BYTES]);
  }

  /** Without a readable header and manifest there is nothing to decode. */
  lemma NoLayout(codec: Codec, bytes: Bytes)
    requires var start := |MAGIC| + LENGTH_BYTES;
             || |bytes| < start || bytes[..|MAGIC|] != MAGIC
             || var length := Value(bytes[|MAGIC|..start]);
                length < MIN_MANIFEST || length > MAX_MANIFEST || start + length > |bytes|
                || ParseManifest(codec, bytes[start..start + length]).None?
    ensures Decode(codec, bytes) == None
  {
    forall raw, m, contents | Layout(codec, bytes, raw, m, contents) ensures false {
      HeaderReads(bytes, raw, Flatten(contents));
    }
  }

  lemma {:induction false} FlattenSplits(codec: Codec, refs: seq<PayloadRef>, contents: seq<Bytes>, i: nat)
    requires Matches(codec, refs, contents) && i <= |refs|
    ensures Flatten(contents[..i]) <= Flatten(contents)
    ensures Matches(codec, refs[..i], contents[..i])
  {
    if i < |refs| {
      FlattenPrefix(contents, i);
      assert Flatten(contents[..i]) <= Flatten(contents[..i + 1]);
    } else {
      assert contents[..i] == contents;
    }
  }

  /** The payloads read so far are the first payloads of any layout. */
  lemma {:induction false} PrefixForced(codec: Codec, refs: seq<PayloadRef>, full: seq<Bytes>, done: seq<Bytes>)
    requires |done| <= |refs| && Matches(codec, refs, full) && Matches(codec, refs[..|done|], done)
    requires Flatten(done) <= Flatten(full)
    ensures done == full[..|done|]
  {
    var n := |done|;
    FlattenSplits(codec, refs, full, n);
    SameLength(codec, refs[..n], full[..n], done);
    assert Flatten(full[..n]) == Flatten(full)[..|Flatten(done)|] == Flatten(done);
    FlattenInjective(codec, refs[..n], full[..n], done);
  }

  lemma {:induction false} SameLength(codec: Codec, refs: seq<PayloadRef>, a: seq<Bytes>, b: seq<Bytes>)
    requires Matches(codec, refs, a) && Matches(codec, refs, b)
    ensures |Flatten(a)| == |Flatten(b)|
  {
    if refs != [] {
      var n := |refs| - 1;
      assert MatchesOne(codec, refs[n], a[n]) && MatchesOne(codec, refs[n], b[n]);
      FlattenSplits(codec, refs, a, n);
      FlattenSplits(codec, refs, b, n);
      SameLength(codec, refs[..n], a[..n], b[..n]);
    }
  }

  /** The first payloads have been read from the bytes after the manifest. */
  ghost predicate PayloadsRead(codec: Codec, rest: Bytes, refs: seq<PayloadRef>, contents: seq<Bytes>) {
    |contents| <= |refs| && Matches(codec, refs[..|contents|], contents) && Flatten(contents) <= rest
  }

  /** What is known of a bundle whose header, manifest and first payloads have been read. */
  ghost predicate ReadSoFar(codec: Codec, bytes: Bytes, raw: Bytes, m: Manifest, contents: seq<Bytes>) {
    var start := |MAGIC| + LENGTH_BYTES;
    && |bytes| >= start + |raw| && bytes[..|MAGIC|] == MAGIC
    && Value(bytes[|MAGIC|..start]) == |raw| && MIN_MANIFEST <= |raw| <= MAX_MANIFEST
    && bytes[start..start + |raw|] == raw && ParseManifest(codec, raw) == Some(m)
    && PayloadsRead(codec, bytes[start + |raw|..], m.payloads, contents)
  }

  lemma ReadSoFarForced(
      codec: Codec, bytes: Bytes, raw: Bytes, m: Manifest, done: seq<Bytes>, r2: Bytes, m2: Manifest, full: seq<Bytes>)
    requires ReadSoFar(codec, bytes, raw, m, done) && Layout(codec, bytes, r2, m2, full)
    ensures r2 == raw && m2 == m && Matches(codec, m.payloads, full) && |full| == |m.payloads| >= |done|
            && done == full[..|done|]
    ensures |MAGIC| + LENGTH_BYTES + |raw| <= |bytes|
    ensures bytes[|MAGIC| + LENGTH_BYTES + |raw|..] == Flatten(full)
  {
    HeaderReads(bytes, r2, Flatten(full));
    PrefixForced(codec, m.payloads, full, done);
  }

  lemma SliceAfter(bytes: Bytes, base: nat, first: Bytes, next: Bytes)
    requires base <= |bytes| && first + next <= bytes[base..]
    ensures base + |first| + |next| <= |bytes|
    ensures bytes[base + |first|..base + |first| + |next|] == next
  {
    assert bytes[base..][..|first| + |next|] == first + next;
    assert bytes[base..][|first|..|first| + |next|] == next;
  }

  /** The next payload of any layout lies right after the payloads before it. */
  lemma NextForced(
      codec: Codec, bytes: Bytes, base: nat, refs: seq<PayloadRef>, full: seq<Bytes>, k: nat, before: Bytes)
    requires Matches(codec, refs, full) && k < |refs| && before == Flatten(full[..k])
    requires base <= |bytes| && bytes[base..] == Flatten(full)
    ensures base + |before| + refs[k].bytes <= |bytes|
    ensures codec.sha(bytes[base + |before|..base + |before| + refs[k].bytes]) == refs[k].sha256
  {
    var next := full[k];
    assert before + next <= Flatten(full) by { FlattenPrefix(full, k); }
    SliceAfter(bytes, base, before, next);
    assert MatchesOne(codec, refs[k], next);
  }

  /** The next payload lies where the loop looks for it, with the length and digest it looks for. */
  ghost predicate NextFits(codec: Codec, bytes: Bytes, offset: nat, ref: PayloadRef) {
    offset + ref.bytes <= |bytes| && codec.sha(bytes[offset..offset + ref.bytes]) == ref.sha256
  }

  lemma NextInLayout(
      codec: Codec, bytes: Bytes, raw: Bytes, m: Manifest, done: seq<Bytes>, r2: Bytes, m2: Manifest, full: seq<Bytes>)
    requires ReadSoFar(codec, bytes, raw, m, done) && |done| < |m.payloads| && Layout(codec, bytes, r2, m2, full)
    ensures NextFits(codec, bytes, |MAGIC| + LENGTH_BYTES + |raw| + |Flatten(done)|, m.payloads[|done|])
  {
    hide ReadSoFar, Layout, Matches, Flatten;
    ReadSoFarForced(codec, bytes, raw, m, done, r2, m2, full);
    NextForced(codec, bytes, |MAGIC| + LENGTH_BYTES + |raw|, m.payloads, full, |done|, Flatten(done));
  }

  lemma LayoutOf(codec: Codec, bytes: Bytes) returns (raw: Bytes, m: Manifest, contents: seq<Bytes>)
    requires Decode(codec, bytes).Some?
    ensures Layout(codec, bytes, raw, m, contents)
  {
    raw, m, contents :| Layout(codec, bytes, raw, m, contents);
  }

  lemma NextReadable(codec: Codec, bytes: Bytes, raw: Bytes, m: Manifest, done: seq<Bytes>)
    requires ReadSoFar(codec, bytes, raw, m, done) && |done| < |m.payloads|
    ensures Decode(codec, bytes).Some? ==>
              NextFits(codec, bytes, |MAGIC| + LENGTH_BYTES + |raw| + |Flatten(done)|, m.payloads[|done|])
  {
    hide *;
    if Decode(codec, bytes).Some? {
      var r2, m2, full := LayoutOf(codec, bytes);
      NextInLayout(codec, bytes, raw, m, done, r2, m2, full);
    }
  }

  lemma Stuck(codec: Codec, bytes: Bytes, raw: Bytes, m: Manifest, done: seq<Bytes>)
    requires ReadSoFar(codec, bytes, raw, m, done) && |done| < |m.payloads|
    requires !NextFits(codec, bytes, |MAGIC| + LENGTH_BYTES + |raw| + |Flatten(done)|, m.payloads[|done|])
    ensures Decode(codec, bytes) == None
  {
    hide *;
    NextReadable(codec, bytes, raw, m, done);
  }

  /** No bundle has bytes after its last payload. */
  lemma NothingTrails(codec: Codec, bytes: Bytes, raw: Bytes, m: Manifest, done: seq<Bytes>)
    requires ReadSoFar(codec, bytes, raw, m, done) && |done| == |m.payloads|
    ensures Decode(codec, bytes).Some? ==> |MAGIC| + LENGTH_BYTES + |raw| + |Flatten(done)| == |bytes|
  {
    if Decode(codec, bytes).Some? {
      var r2, m2, full :| Layout(codec, bytes, r2, m2, full);
      ReadSoFarForced(codec, bytes, raw, m, done, r2, m2, full);
      assert full[..|done|] == full;
    }
  }

  // ---------------------------------------------------------------------------------------------
  // What is written under which path

  /** With different paths, the map holds each payload under its own. */
  lemma {:induction false} PayloadMapAt(refs: seq<PayloadRef>, contents: seq<Bytes>, i: nat)
    requires |refs| == |contents| && i < |refs|
    requires forall j, k :: 0 <= j < k < |refs| ==> refs[j].path != refs[k].path
    ensures refs[i].path in PayloadMap(refs, contents) && PayloadMap(refs, contents)[refs[i].path] == contents[i]
  {
    if i < |refs| - 1 {
      PayloadMapAt(refs[..|refs| - 1], contents[..|refs| - 1], i);
    }
  }

  lemma {:induction false} PayloadMapKeys(refs: seq<PayloadRef>, contents: seq<Bytes>, path: string)
    requires |refs| == |contents| && path in PayloadMap(refs, contents)
    ensures exists i :: 0 <= i < |refs| && refs[i].path == path
  {
    var n := |refs| - 1;
    if refs[n].path != path {
      PayloadMapKeys(refs[..n], contents[..n], path);
      var i :| 0 <= i < |refs[..n]| && refs[..n][i].path == path;
      assert refs[i].path == path;
    }
  }

  /** The paths of a manifest are different safe paths within the length limit. */
  ghost predicate SafelyListed(codec: Codec, m: Manifest) {
    && (forall i :: 0 <= i < |m.payloads| ==> SafePath(m.payloads[i].path))
    && (codec.pathLimit.Some? ==> forall i :: 0 <= i < |m.payloads| ==> |m.payloads[i].path| <= codec.pathLimit.value)
    && (forall i, j :: 0 <= i < j < |m.payloads| ==> LexLess(m.payloads[i].path, m.payloads[j].path))
  }

  lemma ManifestIsSafe(codec: Codec, m: Manifest)
    ensures ManifestOk(codec, m) <==> SafelyListed(codec, m)
  {
    if ManifestOk(codec, m) {
      forall i, j | 0 <= i < j < |m.payloads| ensures LexLess(m.payloads[i].path, m.payloads[j].path) {
        AscendingPairwise(m.payloads, i, j);
      }
    }
  }

  /**
   Whatever bytes decode, only safe paths are written, each with content of the listed length and digest,
   and nothing else; and a bundle is only ever made of safe paths.
   */
  lemma DecodedIsSafe(codec: Codec, bytes: Bytes)
    requires Decode(codec, bytes).Some?
    ensures var v := Decode(codec, bytes).value;
            && SafelyListed(codec, v.manifest)
            && v.payloads.Keys == (set i | 0 <= i < |v.manifest.payloads| :: v.manifest.payloads[i].path)
            && forall i :: 0 <= i < |v.manifest.payloads| ==>
                 var ref := v.manifest.payloads[i];
                 |v.payloads[ref.path]| == ref.bytes && codec.sha(v.payloads[ref.path]) == ref.sha256
  {
    var raw, m, contents :| Layout(codec, bytes, raw, m, contents)
                            && Decode(codec, bytes) == Some(Verified(m, PayloadMap(m.payloads, contents)));
    hide Decode;
    ManifestIsSafe(codec, m);
    assert Matches(codec, m.payloads, contents);
    hide Layout, ManifestOk, SafePath;
    MapIsExact(codec, m, contents);
  }

  lemma MapIsExact(codec: Codec, m: Manifest, contents: seq<Bytes>)
    requires SafelyListed(codec, m) && Matches(codec, m.payloads, contents)
    ensures var files := PayloadMap(m.payloads, contents);
            && files.Keys == (set i | 0 <= i < |m.payloads| :: m.payloads[i].path)
            && forall i :: 0 <= i < |m.payloads| ==>
                 var ref := m.payloads[i];
                 |files[ref.path]| == ref.bytes && codec.sha(files[ref.path]) == ref.sha256
  {
    hide PayloadMap, SafePath;
    var refs, files := m.payloads, PayloadMap(m.payloads, contents);
    forall j, k | 0 <= j < k < |refs| ensures refs[j].path != refs[k].path {
      LexAsymmetric(refs[j].path, refs[k].path);
    }
    hide LexLess;
    forall i | 0 <= i < |refs| ensures refs[i].path in files && files[refs[i].path] == contents[i] {
      PayloadMapAt(refs, contents, i);
    }
    forall path | path in files ensures exists i :: 0 <= i < |refs| && refs[i].path == path {
      PayloadMapKeys(refs, contents, path);
    }
    assert forall i :: 0 <= i < |refs| ==> MatchesOne(codec, refs[i], contents[i]);
  }

  lemma CreatedIsSafe(codec: Codec, meta: Meta, payloads: seq<Payload>)
    ensures Create(codec, meta, payloads).Some? ==> SafelyListed(codec, Create(codec, meta, payloads).value.1)
  {
    ManifestIsSafe(codec, Manifest(meta, Refs(codec, payloads)));
  }
}
