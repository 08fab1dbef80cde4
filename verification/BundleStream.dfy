/**
 The streaming half of the bundle format: Python reads and writes bundles through files, a chunk at a
 time, and restores payloads into a directory.
 */
module BundleStream {
  import opened Prelude
  import opened Bundle
  import opened ClaimKeys

  /** A file open for reading. */
  class ByteSource {
    const data: Bytes
    var pos: nat

    ghost predicate Valid() reads this {
      pos <= |data|
    }

    constructor (data: Bytes)
      ensures Valid() && this.data == data && pos == 0
    {
      this.data := data;
      pos := 0;
    }

    /** At most `count` bytes, fewer only at the end of the file. */
    method Read(count: nat) returns (chunk: Bytes)
      requires Valid()
      modifies this
      ensures Valid() && pos == Reach(old(pos), count, |data|) && chunk == data[old(pos)..pos]
    {
      var end := if pos + count <= |data| then pos + count else |data|;
      chunk := data[pos..end];
      pos := end;
    }
  }

  /** Where a read of `count` bytes from `pos` ends in a file of `length` bytes. */
  function Reach(pos: nat, count: nat, length: nat): nat {
    if pos + count <= length then pos + count else length
  }

  /** The directory that payloads are restored into. */
  class Directory {
    var files: map<string, Bytes>

    constructor ()
      ensures files == map[]
    {
      files := map[];
    }

    /** Makes the parent directories and truncates the file, unless a file is in the way. */
    method Open(path: string) returns (ok: bool)
      modifies this
      ensures ok <==> !Blocked(old(files).Keys, path)
      ensures files == if ok then old(files)[path := []] else old(files)
    {
      ok := !Blocked(files.Keys, path);
      if ok { files := files[path := []]; }
    }

    method Write(path: string, chunk: Bytes)
      requires path in files
      modifies this
      ensures files == old(files)[path := old(files)[path] + chunk]
    {
      files := files[path := files[path] + chunk];
    }
  }

  predicate Inside(outer: string, inner: string) {
    outer + "/" <= inner
  }

  /** One of the files would have to be a directory for the path to exist, or the other way round. */
  predicate Blocked(files: set<string>, path: string) {
    exists f :: f in files && (Inside(f, path) || Inside(path, f))
  }

  /** One listed path lies below another one. */
  ghost predicate Nested(refs: seq<PayloadRef>) {
    exists i, j :: 0 <= i < |refs| && 0 <= j < |refs| && Inside(refs[i].path, refs[j].path)
  }

  // ---------------------------------------------------------------------------------------------
  // Reading

  lemma SlicesJoin(data: Bytes, a: nat, b: nat, c: nat)
    requires a <= b <= c <= |data|
    ensures data[a..b] + data[b..c] == data[a..c]
  {
  }

  /** Copies and hashes up to `expected` bytes; the digest covers exactly the bytes copied. */
  method CopyAndHashExact(
      codec: Codec, source: ByteSource, target: Directory?, path: string, expected: nat, chunkSize: nat)
    returns (digest: string, size: nat)
    requires source.Valid() && chunkSize > 0 && (target != null ==> path in target.files)
    modifies source, target
    ensures source.Valid() && source.pos == Reach(old(source.pos), expected, |source.data|)
    ensures size == source.pos - old(source.pos) && digest == codec.sha(source.data[old(source.pos)..source.pos])
    ensures target != null ==>
              target.files
                == old(target.files)[path := old(target.files)[path] + source.data[old(source.pos)..source.pos]]
  {
    ghost var start := source.pos;
    var hashed: Bytes := [];
    size := 0;
    var remaining := expected;
    assert target != null ==> target.files[path] + [] == target.files[path];
    while remaining > 0
      invariant source.Valid() && start <= source.pos && size == source.pos - start && size + remaining == expected
                && remaining >= 0
      invariant hashed == source.data[start..source.pos]
      invariant target != null ==> target.files == old(target.files)[path := old(target.files)[path] + hashed]
    {
      ghost var from := source.pos;
      var chunk := source.Read(if chunkSize < remaining then chunkSize else remaining);
      if chunk == [] {
        assert source.pos == |source.data|;
        break;
      }
      if target != null {
        target.Write(path, chunk);
        assert old(target.files)[path] + hashed + chunk == old(target.files)[path] + (hashed + chunk);
      }
      SlicesJoin(source.data, start, from, source.pos);
      hashed := hashed + chunk;
      size := size + |chunk|;
      remaining := remaining - |chunk|;
    }
    digest := codec.sha(hashed);
  }

  /** Reads the magic, the length and the manifest, and leaves the source at the first payload. */
  method ReadManifest(codec: Codec, source: ByteSource) returns (r: Option<Manifest>, ghost raw: Bytes)
    requires source.Valid() && source.pos == 0
    modifies source
    ensures source.Valid()
    ensures r.None? ==> Decode(codec, source.data) == None
    ensures r.Some? ==> source.pos == |MAGIC| + LENGTH_BYTES + |raw|
    ensures r.Some? ==> ReadSoFar(codec, source.data, raw, r.value, [])
  {
    raw := [];
    var magic := source.Read(|MAGIC|);
    if magic != MAGIC {
      NoLayout(codec, source.data);
      return None, [];
    }
    var lengthRaw := source.Read(LENGTH_BYTES);
    if |lengthRaw| != LENGTH_BYTES {
      NoLayout(codec, source.data);
      return None, [];
    }
    var length := Value(lengthRaw);
    if length < MIN_MANIFEST || length > MAX_MANIFEST {
      NoLayout(codec, source.data);
      return None, [];
    }
    var manifestRaw := source.Read(length);
    if |manifestRaw| != length {
      NoLayout(codec, source.data);
      return None, [];
    }
    raw := manifestRaw;
    r := ParseManifest(codec, manifestRaw);
    if r.None? {
      NoLayout(codec, source.data);
    }
  }

  /** Opens the file of the next payload, which fails exactly when another payload's file is in its way. */
  method OpenNext(refs: seq<PayloadRef>, ghost done: seq<Bytes>, i: nat, target: Directory) returns (ok: bool)
    requires i == |done| < |refs| && target.files == PayloadMap(refs[..i], done) && !Nested(refs[..i])
    modifies target
    ensures ok ==> target.files == PayloadMap(refs[..i], done)[refs[i].path := []] && !Nested(refs[..i + 1])
    ensures !ok ==> Nested(refs)
  {
    PayloadKeys(refs[..i], done);
    NestedStep(refs, i, target.files.Keys);
    ok := target.Open(refs[i].path);
  }

  /** One turn of the loop below: opens the next file and copies the next payload into it. */
  method StreamPayload(
      codec: Codec, source: ByteSource, ghost raw: Bytes, m: Manifest, ghost done: seq<Bytes>, i: nat,
      target: Directory?, chunkSize: nat)
    returns (ok: bool, ghost content: Bytes)
    requires source.Valid() && chunkSize > 0 && i == |done| < |m.payloads|
             && ReadSoFar(codec, source.data, raw, m, done)
    requires source.pos == |MAGIC| + LENGTH_BYTES + |raw| + |Flatten(done)|
    requires target != null ==> target.files == PayloadMap(m.payloads[..i], done) && !Nested(m.payloads[..i])
    modifies source, target
    ensures !ok ==> Decode(codec, source.data) == None || (target != null && Nested(m.payloads))
    ensures ok ==> && source.Valid() && ReadSoFar(codec, source.data, raw, m, done + [content])
                   && source.pos == |MAGIC| + LENGTH_BYTES + |raw| + |Flatten(done + [content])|
    ensures ok && target != null ==>
              target.files == PayloadMap(m.payloads[..i + 1], done + [content]) && !Nested(m.payloads[..i + 1])
  {
    hide Nested, PayloadMap, ReadSoFar, Decode, Flatten;
    var ref := m.payloads[i];
    content := [];
    if target != null {
      var clear := OpenNext(m.payloads, done, i, target);
      if !clear { return false, []; }
    }
    ghost var from := source.pos;
    var digest, size := CopyAndHashExact(codec, source, target, ref.path, ref.bytes, chunkSize);
    content := source.data[from..source.pos];
    PayloadRead(codec, source.data, raw, m, done, source.pos, content);
    assert [] + content == content;
    ok := size == ref.bytes && digest == ref.sha256;
  }

  /** What a read of the next payload's length establishes, whether or not it fits. */
  lemma PayloadRead(codec: Codec, bytes: Bytes, raw: Bytes, m: Manifest, done: seq<Bytes>, to: nat, content: Bytes)
    requires ReadSoFar(codec, bytes, raw, m, done) && |done| < |m.payloads|
    requires var from := |MAGIC| + LENGTH_BYTES + |raw| + |Flatten(done)|;
             from <= to <= |bytes| && to == Reach(from, m.payloads[|done|].bytes, |bytes|) && content == bytes[from..to]
    ensures !MatchesOne(codec, m.payloads[|done|], content) ==> Decode(codec, bytes) == None
    ensures MatchesOne(codec, m.payloads[|done|], content) ==>
              && ReadSoFar(codec, bytes, raw, m, done + [content])
              && Flatten(done + [content]) == Flatten(done) + content
              && PayloadMap(m.payloads[..|done| + 1], done + [content])
                 == PayloadMap(m.payloads[..|done|], done)[m.payloads[|done|].path := content]
  {
    if MatchesOne(codec, m.payloads[|done|], content) {
      OneMoreRead(codec, bytes, raw, m, done, content);
    } else {
      ShortOrWrong(codec, bytes, |MAGIC| + LENGTH_BYTES + |raw| + |Flatten(done)|, m.payloads[|done|], content);
      hide *;
      Stuck(codec, bytes, raw, m, done);
    }
  }

  /** A read that does not match is short or has the wrong digest. */
  lemma ShortOrWrong(codec: Codec, bytes: Bytes, from: nat, ref: PayloadRef, content: Bytes)
    requires from <= |bytes| && content == bytes[from..Reach(from, ref.bytes, |bytes|)]
             && !MatchesOne(codec, ref, content)
    ensures !NextFits(codec, bytes, from, ref)
  {
  }

  /** The chunked loop accepts what slicing accepts, and writes what slicing returns. */
  method VerifyPayloadStream(
      codec: Codec, source: ByteSource, ghost raw: Bytes, m: Manifest, target: Directory?, chunkSize: nat)
    returns (ok: bool)
    requires source.Valid() && chunkSize > 0 && ReadSoFar(codec, source.data, raw, m, [])
    requires source.pos == |MAGIC| + LENGTH_BYTES + |raw| && (target != null ==> target.files == map[])
    modifies source, target
    ensures ok <==> Decode(codec, source.data).Some? && !(target != null && Nested(m.payloads))
    ensures ok ==> Decode(codec, source.data).value.manifest == m
    ensures ok && target != null ==> target.files == Decode(codec, source.data).value.payloads
  {
    ghost var contents: seq<Bytes> := [];
    for i := 0 to |m.payloads|
      invariant source.Valid() && |contents| == i && ReadSoFar(codec, source.data, raw, m, contents)
      invariant source.pos == |MAGIC| + LENGTH_BYTES + |raw| + |Flatten(contents)|
      invariant target != null ==> target.files == PayloadMap(m.payloads[..i], contents) && !Nested(m.payloads[..i])
    {
      var fits, content := StreamPayload(codec, source, raw, m, contents, i, target, chunkSize);
      if !fits { return false; }
      contents := contents + [content];
    }
    assert m.payloads[..|m.payloads|] == m.payloads;
    var extra := source.Read(1);
    if extra != [] {
      NothingTrails(codec, source.data, raw, m, contents);
      return false;
    }
    AllRead(codec, source.data, raw, m, contents);
    return true;
  }

  lemma {:induction false} PayloadKeys(refs: seq<PayloadRef>, contents: seq<Bytes>)
    requires |refs| == |contents|
    ensures forall p :: p in PayloadMap(refs, contents) <==> exists i :: 0 <= i < |refs| && refs[i].path == p
  {
    if refs != [] {
      PayloadKeys(refs[..|refs| - 1], contents[..|refs| - 1]);
    }
  }

  /** A path that a file blocks is nested with it, and otherwise adds no nesting. */
  lemma NestedStep(refs: seq<PayloadRef>, i: nat, files: set<string>)
    requires i < |refs| && forall p :: p in files <==> exists k :: 0 <= k < i && refs[k].path == p
    ensures Blocked(files, refs[i].path) ==> Nested(refs)
    ensures !Blocked(files, refs[i].path) && !Nested(refs[..i]) ==> !Nested(refs[..i + 1])
  {
    if Blocked(files, refs[i].path) {
      var f :| f in files && (Inside(f, refs[i].path) || Inside(refs[i].path, f));
      var k :| 0 <= k < i && refs[k].path == f;
      assert Inside(refs[k].path, refs[i].path) || Inside(refs[i].path, refs[k].path);
    } else if Nested(refs[..i + 1]) {
      var j, k :| 0 <= j < i + 1 && 0 <= k < i + 1 && Inside(refs[..i + 1][j].path, refs[..i + 1][k].path);
      assert refs[j].path in files || j == i;
      assert refs[k].path in files || k == i;
      assert j != i || k != i;
      assert j < i && k < i;
      assert Inside(refs[..i][j].path, refs[..i][k].path);
    }
  }

  datatype RestoreError = NotABundle | RunMismatch | PlanMismatch | AdapterMismatch | PayloadsRefused

  /** The identity checks between the manifest and the payloads, in the order they are made. */
  function ManifestIdentity(meta: Meta, run: string, plan: string, adapter: AdapterSpec): Option<RestoreError> {
    if meta.run != run then Some(RunMismatch)
    else if meta.plan != plan then Some(PlanMismatch)
    else if meta.adapter != adapter then Some(AdapterMismatch)
    else None
  }

  /** Checks a bundle and returns its manifest without restoring anything. */
  method ReadBundle(codec: Codec, bytes: Bytes, chunkSize: nat) returns (r: Option<Manifest>)
    requires chunkSize > 0
    ensures r == match Decode(codec, bytes) case None => None case Some(v) => Some(v.manifest)
  {
    var source := new ByteSource(bytes);
    var m, raw := ReadManifest(codec, source);
    if m.None? { return None; }
    var ok := VerifyPayloadStream(codec, source, raw, m.value, null, chunkSize);
    r := if ok then m else None;
  }

  /** Restores the payloads of a matching bundle into an empty directory, whatever the chunk size. */
  method RestoreBundle(
      codec: Codec, bytes: Bytes, run: string, plan: string, adapter: AdapterSpec, root: Directory, chunkSize: nat)
    returns (r: Result<Manifest, RestoreError>)
    requires chunkSize > 0 && root.files == map[]
    modifies root
    ensures r.Ok? <==> && Decode(codec, bytes).Some?
                       && ManifestIdentity(Decode(codec, bytes).value.manifest.meta, run, plan, adapter).None?
                       && !Nested(Decode(codec, bytes).value.manifest.payloads)
    ensures r.Ok? ==> Decode(codec, bytes) == Some(Verified(r.value, root.files))
    ensures r.Err? && Decode(codec, bytes).Some? ==>
              var m := Decode(codec, bytes).value.manifest;
              r.error
                == match ManifestIdentity(m.meta, run, plan, adapter) case Some(e) => e case None => PayloadsRefused
  {
    var source := new ByteSource(bytes);
    var m, raw := ReadManifest(codec, source);
    if m.None? { return Err(NotABundle); }
    ManifestDecided(codec, bytes, raw, m.value);
    var mismatch := ManifestIdentity(m.value.meta, run, plan, adapter);
    if mismatch.Some? { return Err(mismatch.value); }
    var ok := VerifyPayloadStream(codec, source, raw, m.value, root, chunkSize);
    r := if ok then Ok(m.value) else Err(PayloadsRefused);
  }

  lemma ManifestDecided(codec: Codec, bytes: Bytes, raw: Bytes, m: Manifest)
    requires ReadSoFar(codec, bytes, raw, m, [])
    ensures Decode(codec, bytes).Some? ==> Decode(codec, bytes).value.manifest == m
  {
    if Decode(codec, bytes).Some? {
      var r2, m2, full :| Layout(codec, bytes, r2, m2, full);
      ReadSoFarForced(codec, bytes, raw, m, [], r2, m2, full);
      DecodeIs(codec, bytes, r2, m2, full);
    }
  }

  lemma NestedNames()
    ensures SafePath("a") && SafePath("a/b") && LexLess("a", "a/b")
  {
    NamesOfClash();
    assert Split("a") == ["a"] by { assert "a"[1..] == ""; assert ['a'] + "" == "a"; }
    assert "a"[1..] == "" && "a/b"[1..] == "/b";
  }

  /** Payloads of which one lies below the other make a bundle that decodes and that no directory can hold. */
  lemma NestedBundleDecodes(codec: Codec, meta: Meta, x: Bytes, y: Bytes)
    requires RoundTrips(codec) && (codec.pathLimit.Some? ==> codec.pathLimit.value >= 3)
    requires var payloads := [Payload("a", x), Payload("a/b", y)];
             MIN_MANIFEST <= |codec.render(Manifest(meta, Refs(codec, payloads)))| <= MAX_MANIFEST
    ensures var payloads := [Payload("a", x), Payload("a/b", y)];
            && Create(codec, meta, payloads).Some?
            && Decode(codec, Create(codec, meta, payloads).value.0)
               == Some(Verified(Manifest(meta, Refs(codec, payloads)), Saved(payloads)))
            && Nested(Refs(codec, payloads))
  {
    var payloads := [Payload("a", x), Payload("a/b", y)];
    NestedNames();
    ManifestLengthsFit();
    hide LexLess, Split, SafePath;
    var refs := Refs(codec, payloads);
    assert refs[0].path == "a" && refs[1].path == "a/b";
    assert ManifestOk(codec, Manifest(meta, refs));
    assert Inside(refs[0].path, refs[1].path);
    CreatedDecodes(codec, meta, payloads);
  }

  // ---------------------------------------------------------------------------------------------
  // Writing

  /** Hashes the rest of a file. */
  method HashStream(codec: Codec, source: ByteSource, chunkSize: nat) returns (digest: string, size: nat)
    requires source.Valid() && chunkSize > 0
    modifies source
    ensures size == |source.data| - old(source.pos) && digest == codec.sha(source.data[old(source.pos)..])
  {
    ghost var start := source.pos;
    var hashed: Bytes := [];
    size := 0;
    while true
      invariant source.Valid() && start <= source.pos && size == source.pos - start
      invariant hashed == source.data[start..source.pos]
      decreases |source.data| - source.pos
    {
      ghost var from := source.pos;
      var chunk := source.Read(chunkSize);
      if chunk == [] { break; }
      SlicesJoin(source.data, start, from, source.pos);
      hashed := hashed + chunk;
      size := size + |chunk|;
    }
    assert source.data[start..source.pos] == source.data[start..];
    digest := codec.sha(hashed);
  }

  /** Lists the payload files, in the order of the walk over the directory. */
  method PayloadRefs(codec: Codec, payloads: seq<Payload>, chunkSize: nat) returns (refs: seq<PayloadRef>)
    requires chunkSize > 0
    ensures refs == Refs(codec, payloads)
  {
    refs := [];
    for i := 0 to |payloads|
      invariant refs == Refs(codec, payloads)[..i]
    {
      var source := new ByteSource(payloads[i].content);
      var digest, size := HashStream(codec, source, chunkSize);
      assert payloads[i].content[0..] == payloads[i].content;
      refs := refs + [PayloadRef(payloads[i].path, size, digest)];
    }
  }

  /** Copies exactly `size` bytes to the end of the bundle, or reports that the file has shrunk. */
  method CopyExact(source: ByteSource, bundle: Bytes, size: nat, chunkSize: nat) returns (ok: bool, out: Bytes)
    requires source.Valid() && source.pos == 0 && chunkSize > 0
    modifies source
    ensures ok <==> size <= |source.data|
    ensures ok ==> out == bundle + source.data[..size]
  {
    out := bundle;
    var remaining := size;
    assert source.data[..0] == [];
    while remaining > 0
      invariant source.Valid() && source.pos + remaining == size && remaining >= 0
                && out == bundle + source.data[..source.pos]
    {
      ghost var from := source.pos;
      var chunk := source.Read(if chunkSize < remaining then chunkSize else remaining);
      if chunk == [] { return false, out; }
      assert source.data[..source.pos] == source.data[..from] + chunk;
      assert bundle + source.data[..from] + chunk == bundle + (source.data[..from] + chunk);
      out := out + chunk;
      remaining := remaining - |chunk|;
    }
    ok := true;
  }

  /** What the second reading of the payload files contributes to the bundle. */
  function Cut(payloads: seq<Payload>, reread: seq<Bytes>): seq<Bytes>
    requires |reread| == |payloads| && forall i :: 0 <= i < |payloads| ==> |payloads[i].content| <= |reread[i]|
  {
    seq(|payloads|, i requires 0 <= i < |payloads| => reread[i][..|payloads[i].content|])
  }

  /** Copies the payload files behind the manifest on their second reading. */
  method WritePayloads(payloads: seq<Payload>, reread: seq<Bytes>, header: Bytes, chunkSize: nat)
    returns (r: Option<Bytes>)
    requires chunkSize > 0 && |reread| == |payloads|
    ensures r.Some? <==> forall i :: 0 <= i < |payloads| ==> |payloads[i].content| <= |reread[i]|
    ensures r.Some? ==> r.value == header + Flatten(Cut(payloads, reread))
  {
    var bundle := header;
    ghost var copied: seq<Bytes> := [];
    for i := 0 to |payloads|
      invariant forall k :: 0 <= k < i ==> |payloads[k].content| <= |reread[k]|
      invariant |copied| == i && forall k :: 0 <= k < i ==> copied[k] == reread[k][..|payloads[k].content|]
      invariant bundle == header + Flatten(copied)
    {
      var source := new ByteSource(reread[i]);
      var size := |payloads[i].content|;
      var ok, longer := CopyExact(source, bundle, size, chunkSize);
      if !ok { return None; }
      AppendOne(copied, reread[i][..size]);
      assert bundle + reread[i][..size] == header + (Flatten(copied) + reread[i][..size]);
      bundle := longer;
      copied := copied + [reread[i][..size]];
    }
    assert copied == Cut(payloads, reread);
    r := Some(bundle);
  }

  /**
   Hashes every file, then writes the header and copies the files on a second reading, which may find
   them changed. A file that shrank is refused; unchanged files give exactly the bundle of `Create`.
   */
  method CreateBundle(codec: Codec, meta: Meta, payloads: seq<Payload>, reread: seq<Bytes>, chunkSize: nat)
    returns (r: Option<(Bytes, Manifest)>)
    requires chunkSize > 0 && |reread| == |payloads|
    ensures r.Some? <==> Create(codec, meta, payloads).Some?
                         && forall i :: 0 <= i < |payloads| ==> |payloads[i].content| <= |reread[i]|
    ensures r.Some? ==> r.value.1 == Create(codec, meta, payloads).value.1
    ensures r.Some? ==> var raw := codec.render(r.value.1);
                        r.value.0 == Header(|raw|) + raw + Flatten(Cut(payloads, reread))
    ensures reread == Contents(payloads) ==> r == Create(codec, meta, payloads)
  {
    var refs := PayloadRefs(codec, payloads, chunkSize);
    var m := Manifest(meta, refs);
    if !ManifestOk(codec, m) { return None; }
    var raw := codec.render(m);
    if |raw| >= Pow256(LENGTH_BYTES) { return None; }
    var bundle := WritePayloads(payloads, reread, MAGIC + BigEndian(|raw|, LENGTH_BYTES) + raw, chunkSize);
    if bundle.None? { return None; }
    if reread == Contents(payloads) {
      forall i | 0 <= i < |payloads| ensures Cut(payloads, reread)[i] == payloads[i].content {
        assert reread[i] == Contents(payloads)[i];
      }
      assert Cut(payloads, reread) == Contents(payloads);
    }
    r := Some((bundle.value, m));
  }

  lemma AppendOne(contents: seq<Bytes>, last: Bytes)
    ensures Flatten(contents + [last]) == Flatten(contents) + last
  {
    assert (contents + [last])[..|contents|] == contents;
  }
}
