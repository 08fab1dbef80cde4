/**
 The object keys under which claims, snapshots, bundles and pointers are stored.

 The protocol modules address objects by structured keys.  This module models the strings the
 program really writes and shows that the structured view loses nothing: a claim key determines
 its run, sequence and attempt, a listing prefix selects exactly the claims it is meant to, and
 the zero padding makes key order agree with numeric order.
 */
module ClaimKeys {
  import opened Prelude

  const CLAIM_DIGITS: nat := 16

  predicate AlphaNumeric(c: char) {
    'A' <= c <= 'Z' || 'a' <= c <= 'z' || '0' <= c <= '9'
  }

  /** The identifiers accepted for runs and attempts. */
  predicate SafeId(s: string) {
    && 1 <= |s| <= 128
    && AlphaNumeric(s[0])
    && forall i :: 0 <= i < |s| ==> AlphaNumeric(s[i]) || s[i] in "._-"
  }

  function Digit(d: nat): char
    requires d < 10
  {
    '0' + d as char
  }

  function Decimal(n: nat): string {
    if n < 10 then [Digit(n)] else Decimal(n / 10) + [Digit(n % 10)]
  }

  function Zeros(n: nat): string {
    seq(n, _ => '0')
  }

  /** Left-pads with zeros, leaving longer strings alone. */
  function Pad(s: string, width: nat): string {
    if |s| < width then Zeros(width - |s|) + s else s
  }

  function PaddedSequence(n: nat): string {
    Pad(Decimal(n), CLAIM_DIGITS)
  }

  /** The root under a normalized prefix: nothing, or the prefix and a separator. */
  function Root(prefix: string): string {
    if prefix == "" then "" else prefix + "/"
  }

  function ProgressClaimPrefix(prefix: string, run: string, sequence: nat): string {
    Root(prefix) + ("operations/" + (run + ("/" + ("progress/claims/sequence-" + (PaddedSequence(sequence) + "/")))))
  }

  function ProgressClaimKey(prefix: string, run: string, sequence: nat, attempt: string): string {
    ProgressClaimPrefix(prefix, run, sequence) + (attempt + ".json")
  }

  function ProgressPointerKey(prefix: string, run: string): string {
    Root(prefix) + ("operations/" + (run + ("/" + "progress/current.json")))
  }

  function ProgressSnapshotKey(prefix: string, run: string, digest: string): string {
    Root(prefix) + ("operations/" + (run + ("/" + ("progress/snapshots/sha256-" + (digest + "/progress.json")))))
  }

  function CheckpointClaimPrefix(prefix: string, run: string): string {
    Root(prefix) + (run + ("/" + "checkpoints/claims/"))
  }

  function CheckpointClaimKey(prefix: string, run: string, sequence: nat, attempt: string): string {
    CheckpointClaimPrefix(prefix, run) + ("sequence-" + (PaddedSequence(sequence) + ("/" + (attempt + ".json"))))
  }

  function CheckpointBundleKey(prefix: string, run: string, digest: string): string {
    Root(prefix) + (run + ("/" + ("checkpoints/sha256-" + (digest + "/checkpoint.hfjob"))))
  }

  function CheckpointPointerKey(prefix: string, run: string): string {
    Root(prefix) + (run + ("/" + "current.json"))
  }

  // ---------------------------------------------------------------------------------------------
  // Padded decimals

  /** n written with exactly `width` digits, dropping digits that do not fit. */
  function Fixed(n: nat, width: nat): string
    decreases width
  {
    if width == 0 then "" else Fixed(n / 10, width - 1) + [Digit(n % 10)]
  }

  function Pow10(k: nat): nat {
    if k == 0 then 1 else 10 * Pow10(k - 1)
  }

  predicate LexLess(a: string, b: string) {
    if a == [] || b == [] then a == [] && b != []
    else a[0] < b[0] || (a[0] == b[0] && LexLess(a[1..], b[1..]))
  }

  lemma FixedLength(n: nat, width: nat)
    ensures |Fixed(n, width)| == width
    ensures '/' !in Fixed(n, width)
  {
    if width > 0 {
      FixedLength(n / 10, width - 1);
    }
  }

  lemma FixedOfZero(width: nat)
    ensures Fixed(0, width) == Zeros(width)
  {
    if width > 0 {
      FixedOfZero(width - 1);
      assert Zeros(width) == Zeros(width - 1) + ['0'];
    }
  }

  lemma {:induction false} PadIsFixed(n: nat, width: nat)
    requires n < Pow10(width) && width >= 1
    ensures Pad(Decimal(n), width) == Fixed(n, width)
  {
    if n < 10 {
      FixedOfZero(width - 1);
      assert Fixed(n, width) == Zeros(width - 1) + [Digit(n)];
      if width == 1 {
        assert Zeros(0) + [Digit(n)] == [Digit(n)];
      }
    } else {
      assert Pow10(1) == 10;
      PadIsFixed(n / 10, width - 1);
      var head, last := Decimal(n / 10), [Digit(n % 10)];
      if |head| < width - 1 {
        assert Zeros(width - 1 - |head|) + (head + last) == (Zeros(width - 1 - |head|) + head) + last;
      }
    }
  }

  lemma SafeSequencesFit(n: nat)
    requires n <= MAX_SAFE_INTEGER
    ensures n < Pow10(CLAIM_DIGITS)
  {
    assert Pow10(4) == 10_000;
    assert Pow10(8) == 10_000 * Pow10(4);
    assert Pow10(12) == 10_000 * Pow10(8);
    assert Pow10(16) == 10_000 * Pow10(12);
  }

  lemma {:induction false} LexLessAppend(a: string, b: string, x: char, y: char)
    requires |a| == |b|
    ensures LexLess(a + [x], b + [y]) <==> LexLess(a, b) || (a == b && x < y)
  {
    if a == [] {
      assert a + [x] == [x] && b + [y] == [y];
    } else {
      assert (a + [x])[1..] == a[1..] + [x] && (b + [y])[1..] == b[1..] + [y];
      LexLessAppend(a[1..], b[1..], x, y);
      assert a == b <==> a[0] == b[0] && a[1..] == b[1..] by {
        assert a == [a[0]] + a[1..] && b == [b[0]] + b[1..];
      }
    }
  }

  lemma {:induction false} FixedOrder(m: nat, n: nat, width: nat)
    requires m < Pow10(width) && n < Pow10(width)
    ensures LexLess(Fixed(m, width), Fixed(n, width)) <==> m < n
    ensures Fixed(m, width) == Fixed(n, width) <==> m == n
  {
    if width > 0 {
      FixedOrder(m / 10, n / 10, width - 1);
      FixedLength(m / 10, width - 1);
      FixedLength(n / 10, width - 1);
      var a, b := Fixed(m / 10, width - 1), Fixed(n / 10, width - 1);
      LexLessAppend(a, b, Digit(m % 10), Digit(n % 10));
      assert a + [Digit(m % 10)] == b + [Digit(n % 10)] <==> a == b && Digit(m % 10) == Digit(n % 10) by {
        assert (a + [Digit(m % 10)])[..width - 1] == a && (b + [Digit(n % 10)])[..width - 1] == b;
        assert (a + [Digit(m % 10)])[width - 1] == Digit(m % 10);
        assert (b + [Digit(n % 10)])[width - 1] == Digit(n % 10);
      }
    }
  }

  /** Padded sequences sort as strings the way the sequences sort as numbers. */
  lemma PaddedOrderIsNumeric(m: nat, n: nat)
    requires m <= MAX_SAFE_INTEGER && n <= MAX_SAFE_INTEGER
    ensures LexLess(PaddedSequence(m), PaddedSequence(n)) <==> m < n
    ensures PaddedSequence(m) == PaddedSequence(n) <==> m == n
    ensures |PaddedSequence(m)| == CLAIM_DIGITS && '/' !in PaddedSequence(m)
  {
    SafeSequencesFit(m);
    SafeSequencesFit(n);
    PadIsFixed(m, CLAIM_DIGITS);
    PadIsFixed(n, CLAIM_DIGITS);
    FixedOrder(m, n, CLAIM_DIGITS);
    FixedLength(m, CLAIM_DIGITS);
  }

  // ---------------------------------------------------------------------------------------------
  // Splitting keys into their components

  lemma SafeIdHasNoSlash(s: string)
    requires SafeId(s)
    ensures '/' !in s
  {
  }

  lemma StripPrefix(p: string, a: string, b: string)
    ensures p + a <= p + b <==> a <= b
    ensures p + a == p + b <==> a == b
  {
    assert (p + a)[|p|..] == a && (p + b)[|p|..] == b;
    if p + a <= p + b {
      assert forall i :: 0 <= i < |a| ==> a[i] == (p + a)[|p| + i] && b[i] == (p + b)[|p| + i];
    }
  }

  /** A path component ends at its first separator, so it can be read back from a longer key. */
  lemma {:induction false} SplitAtSlash(x: string, y: string, a: string, b: string)
    requires '/' !in x && '/' !in y
    ensures x + ("/" + a) <= y + ("/" + b) <==> x == y && a <= b
    ensures x + ("/" + a) == y + ("/" + b) <==> x == y && a == b
  {
    if x == [] || y == [] {
      if x == y {
        StripPrefix("/", a, b);
        assert x + ("/" + a) == "/" + a && y + ("/" + b) == "/" + b;
      } else {
        assert (x + ("/" + a))[0] != (y + ("/" + b))[0];
      }
    } else {
      SplitAtSlash(x[1..], y[1..], a, b);
      assert x + ("/" + a) == [x[0]] + (x[1..] + ("/" + a));
      assert y + ("/" + b) == [y[0]] + (y[1..] + ("/" + b));
      if x[0] == y[0] {
        StripPrefix([x[0]], x[1..] + ("/" + a), y[1..] + ("/" + b));
        assert x == y <==> x[1..] == y[1..] by { assert x == [x[0]] + x[1..] && y == [y[0]] + y[1..]; }
      } else {
        assert (x + ("/" + a))[0] != (y + ("/" + b))[0];
      }
    }
  }

  lemma StripSuffix(a: string, b: string, suffix: string)
    ensures a + suffix == b + suffix <==> a == b
  {
    if a + suffix == b + suffix {
      assert |a| == |b|;
      assert (a + suffix)[..|a|] == a && (b + suffix)[..|b|] == b;
    }
  }

  /** What follows the run in a progress claim key. */
  function ClaimTail(sequence: nat, rest: string): string {
    "progress/claims/sequence-" + (PaddedSequence(sequence) + ("/" + rest))
  }

  lemma ClaimKeyShape(prefix: string, run: string, sequence: nat, rest: string)
    ensures ProgressClaimPrefix(prefix, run, sequence) + rest
         == Root(prefix) + ("operations/" + (run + ("/" + ClaimTail(sequence, rest))))
  {
    var padded := PaddedSequence(sequence);
    assert (padded + "/") + rest == padded + ("/" + rest);
    var tail := "progress/claims/sequence-" + (padded + "/");
    assert tail + rest == ClaimTail(sequence, rest);
    assert (run + ("/" + tail)) + rest == run + ("/" + (tail + rest));
    assert ("operations/" + (run + ("/" + tail))) + rest == "operations/" + ((run + ("/" + tail)) + rest);
  }

  lemma TailsCompare(s: nat, t: nat, a: string, b: string)
    requires s <= MAX_SAFE_INTEGER && t <= MAX_SAFE_INTEGER
    ensures ClaimTail(s, a) <= ClaimTail(t, b) <==> s == t && a <= b
    ensures ClaimTail(s, a) == ClaimTail(t, b) <==> s == t && a == b
  {
    PaddedOrderIsNumeric(s, t);
    PaddedOrderIsNumeric(t, s);
    StripPrefix("progress/claims/sequence-", PaddedSequence(s) + ("/" + a), PaddedSequence(t) + ("/" + b));
    SplitAtSlash(PaddedSequence(s), PaddedSequence(t), a, b);
  }

  lemma UnderRunCompare(prefix: string, run: string, other: string, a: string, b: string)
    requires SafeId(run) && SafeId(other)
    ensures Root(prefix) + ("operations/" + (run + ("/" + a))) <= Root(prefix) + ("operations/" + (other + ("/" + b)))
            <==> run == other && a <= b
    ensures Root(prefix) + ("operations/" + (run + ("/" + a))) == Root(prefix) + ("operations/" + (other + ("/" + b)))
            <==> run == other && a == b
  {
    SafeIdHasNoSlash(run);
    SafeIdHasNoSlash(other);
    StripPrefix(Root(prefix), "operations/" + (run + ("/" + a)), "operations/" + (other + ("/" + b)));
    StripPrefix("operations/", run + ("/" + a), other + ("/" + b));
    SplitAtSlash(run, other, a, b);
  }

  // ---------------------------------------------------------------------------------------------
  // The claims about keys

  /** A progress claim key determines the run, the sequence and the attempt. */
  lemma ProgressClaimKeyInjective(prefix: string, r1: string, s1: nat, a1: string, r2: string, s2: nat, a2: string)
    requires SafeId(r1) && SafeId(r2) && SafeId(a1) && SafeId(a2)
    requires s1 <= MAX_SAFE_INTEGER && s2 <= MAX_SAFE_INTEGER
    ensures ProgressClaimKey(prefix, r1, s1, a1) == ProgressClaimKey(prefix, r2, s2, a2)
            <==> r1 == r2 && s1 == s2 && a1 == a2
  {
    ClaimKeyShape(prefix, r1, s1, a1 + ".json");
    ClaimKeyShape(prefix, r2, s2, a2 + ".json");
    UnderRunCompare(prefix, r1, r2, ClaimTail(s1, a1 + ".json"), ClaimTail(s2, a2 + ".json"));
    TailsCompare(s1, s2, a1 + ".json", a2 + ".json");
    StripSuffix(a1, a2, ".json");
  }

  /** Listing the claims of (run, sequence) selects exactly that run's claims at that sequence. */
  lemma ProgressListingSelects(prefix: string, run: string, sequence: nat, r: string, s: nat, attempt: string)
    requires SafeId(run) && SafeId(r)
    requires sequence <= MAX_SAFE_INTEGER && s <= MAX_SAFE_INTEGER
    ensures ProgressClaimPrefix(prefix, run, sequence) <= ProgressClaimKey(prefix, r, s, attempt)
            <==> run == r && sequence == s
  {
    ClaimKeyShape(prefix, run, sequence, "");
    assert ProgressClaimPrefix(prefix, run, sequence) + "" == ProgressClaimPrefix(prefix, run, sequence);
    ClaimKeyShape(prefix, r, s, attempt + ".json");
    UnderRunCompare(prefix, run, r, ClaimTail(sequence, ""), ClaimTail(s, attempt + ".json"));
    TailsCompare(sequence, s, "", attempt + ".json");
  }

  /** No pointer and no snapshot of any run is ever listed as a claim. */
  lemma ProgressListingSkipsOthers(prefix: string, run: string, sequence: nat, r: string, digest: string)
    requires SafeId(run) && SafeId(r)
    ensures !(ProgressClaimPrefix(prefix, run, sequence) <= ProgressPointerKey(prefix, r))
    ensures !(ProgressClaimPrefix(prefix, run, sequence) <= ProgressSnapshotKey(prefix, r, digest))
  {
    ClaimKeyShape(prefix, run, sequence, "");
    assert ProgressClaimPrefix(prefix, run, sequence) + "" == ProgressClaimPrefix(prefix, run, sequence);
    var tail := ClaimTail(sequence, "");
    UnderRunCompare(prefix, run, r, tail, "progress/current.json");
    var snapshotTail := "progress/snapshots/sha256-" + (digest + "/progress.json");
    UnderRunCompare(prefix, run, r, tail, snapshotTail);
    assert tail[10] == 'l' && snapshotTail[10] == 'n';
    assert "progress/current.json"[9] == 'c' && "progress/current.json"[10] == 'u';
  }

  /** The same for the checkpoint claims, which are listed per run rather than per sequence. */
  lemma CheckpointClaimKeyInjective(prefix: string, r1: string, s1: nat, a1: string, r2: string, s2: nat, a2: string)
    requires SafeId(r1) && SafeId(r2) && SafeId(a1) && SafeId(a2)
    requires s1 <= MAX_SAFE_INTEGER && s2 <= MAX_SAFE_INTEGER
    ensures CheckpointClaimKey(prefix, r1, s1, a1) == CheckpointClaimKey(prefix, r2, s2, a2)
            <==> r1 == r2 && s1 == s2 && a1 == a2
    ensures CheckpointClaimPrefix(prefix, r1) <= CheckpointClaimKey(prefix, r2, s2, a2) <==> r1 == r2
  {
    var t1 := "sequence-" + (PaddedSequence(s1) + ("/" + (a1 + ".json")));
    var t2 := "sequence-" + (PaddedSequence(s2) + ("/" + (a2 + ".json")));
    CheckpointShape(prefix, r1, t1);
    CheckpointShape(prefix, r2, t2);
    CheckpointShape(prefix, r1, "");
    assert CheckpointClaimPrefix(prefix, r1) + "" == CheckpointClaimPrefix(prefix, r1);
    SafeIdHasNoSlash(r1);
    SafeIdHasNoSlash(r2);
    var dir := "checkpoints/claims/";
    StripPrefix(Root(prefix), r1 + ("/" + (dir + t1)), r2 + ("/" + (dir + t2)));
    SplitAtSlash(r1, r2, dir + t1, dir + t2);
    StripPrefix(dir, t1, t2);
    StripPrefix("sequence-", PaddedSequence(s1) + ("/" + (a1 + ".json")), PaddedSequence(s2) + ("/" + (a2 + ".json")));
    PaddedOrderIsNumeric(s1, s2);
    PaddedOrderIsNumeric(s2, s1);
    SplitAtSlash(PaddedSequence(s1), PaddedSequence(s2), a1 + ".json", a2 + ".json");
    StripSuffix(a1, a2, ".json");
    StripPrefix(Root(prefix), r1 + ("/" + (dir + "")), r2 + ("/" + (dir + t2)));
    SplitAtSlash(r1, r2, dir + "", dir + t2);
    StripPrefix(dir, "", t2);
  }

  lemma CheckpointShape(prefix: string, run: string, tail: string)
    ensures CheckpointClaimPrefix(prefix, run) + tail
         == Root(prefix) + (run + ("/" + ("checkpoints/claims/" + tail)))
  {
    assert (run + ("/" + "checkpoints/claims/")) + tail == run + ("/" + ("checkpoints/claims/" + tail));
  }

  /** Bundles and the pointer are never listed as claims, and no bundle lies where the pointer does. */
  lemma CheckpointListingSkipsOthers(prefix: string, run: string, digest: string)
    ensures !(CheckpointClaimPrefix(prefix, run) <= CheckpointBundleKey(prefix, run, digest))
    ensures !(CheckpointClaimPrefix(prefix, run) <= CheckpointPointerKey(prefix, run))
    ensures CheckpointBundleKey(prefix, run, digest) != CheckpointPointerKey(prefix, run)
  {
    var bundle := "checkpoints/sha256-" + (digest + "/checkpoint.hfjob");
    CheckpointShape(prefix, run, "");
    assert CheckpointClaimPrefix(prefix, run) + "" == CheckpointClaimPrefix(prefix, run);
    UnderDirectory(prefix, run, "checkpoints/claims/" + "", bundle);
    UnderDirectory(prefix, run, "checkpoints/claims/" + "", "current.json");
    UnderDirectory(prefix, run, bundle, "current.json");
    assert ("checkpoints/claims/" + "")[12] == 'c' && bundle[12] == 's';
    assert bundle[1] == 'h' && ("checkpoints/claims/" + "")[1] == 'h' && "current.json"[1] == 'u';
  }

  /** A bundle key determines the digest. */
  lemma CheckpointBundleKeyInjective(prefix: string, run: string, d1: string, d2: string)
    ensures CheckpointBundleKey(prefix, run, d1) == CheckpointBundleKey(prefix, run, d2) <==> d1 == d2
  {
    var dir, name := "checkpoints/sha256-", "/checkpoint.hfjob";
    UnderDirectory(prefix, run, dir + (d1 + name), dir + (d2 + name));
    StripPrefix(dir, d1 + name, d2 + name);
    StripSuffix(d1, d2, name);
  }

  lemma UnderDirectory(prefix: string, run: string, a: string, b: string)
    ensures Root(prefix) + (run + ("/" + a)) <= Root(prefix) + (run + ("/" + b)) <==> a <= b
    ensures Root(prefix) + (run + ("/" + a)) == Root(prefix) + (run + ("/" + b)) <==> a == b
  {
    StripPrefix(Root(prefix), run + ("/" + a), run + ("/" + b));
    StripPrefix(run, "/" + a, "/" + b);
    StripPrefix("/", a, b);
  }

  /** Every key lies under the prefix, where it is what it would be without one. */
  lemma KeysLieUnderThePrefix(prefix: string, run: string, n: nat, attempt: string, digest: string)
    requires prefix != ""
    ensures ProgressClaimKey(prefix, run, n, attempt) == prefix + "/" + ProgressClaimKey("", run, n, attempt)
    ensures ProgressPointerKey(prefix, run) == prefix + "/" + ProgressPointerKey("", run)
    ensures ProgressSnapshotKey(prefix, run, digest) == prefix + "/" + ProgressSnapshotKey("", run, digest)
    ensures CheckpointClaimKey(prefix, run, n, attempt) == prefix + "/" + CheckpointClaimKey("", run, n, attempt)
    ensures CheckpointBundleKey(prefix, run, digest) == prefix + "/" + CheckpointBundleKey("", run, digest)
    ensures CheckpointPointerKey(prefix, run) == prefix + "/" + CheckpointPointerKey("", run)
  {
    hide PaddedSequence;
    var padded := PaddedSequence(n);
    UnderRoot(prefix, "operations/" + (run + ("/" + ("progress/claims/sequence-" + (padded + "/")))),
              attempt + ".json");
    UnderRoot(prefix, "operations/" + (run + ("/" + "progress/current.json")), "");
    UnderRoot(prefix, "operations/" + (run + ("/" + ("progress/snapshots/sha256-" + (digest + "/progress.json")))), "");
    UnderRoot(prefix, run + ("/" + "checkpoints/claims/"), "sequence-" + (padded + ("/" + (attempt + ".json"))));
    UnderRoot(prefix, run + ("/" + ("checkpoints/sha256-" + (digest + "/checkpoint.hfjob"))), "");
    UnderRoot(prefix, run + ("/" + "current.json"), "");
  }

  lemma UnderRoot(prefix: string, directory: string, name: string)
    requires prefix != ""
    ensures Root(prefix) + directory + name == prefix + "/" + (Root("") + directory + name)
    ensures Root(prefix) + directory == prefix + "/" + (Root("") + directory)
  {
  }

  lemma Joined(a: string, b: string, c: string, d: string, e: string, f: string)
    ensures a + (b + (c + (d + (e + f)))) == a + b + (c + d) + e + f
    ensures a + (b + (c + d)) == a + b + (c + d)
  {
  }

  lemma ProgressClaimSpelledOut(run: string, n: nat, attempt: string)
    ensures ProgressClaimKey("", run, n, attempt)
         == "operations/" + run + "/progress/claims/sequence-" + PaddedSequence(n) + "/" + (attempt + ".json")
  {
    hide PaddedSequence;
    assert "/" + "progress/claims/sequence-" == "/progress/claims/sequence-";
    Joined("operations/", run, "/", "progress/claims/sequence-", PaddedSequence(n), "/");
  }

  lemma ProgressPointerSpelledOut(run: string)
    ensures ProgressPointerKey("", run) == "operations/" + run + "/progress/current.json"
  {
    assert "/" + "progress/current.json" == "/progress/current.json";
    Joined("operations/", run, "/", "progress/current.json", "", "");
  }

  lemma ProgressSnapshotSpelledOut(run: string, digest: string)
    ensures ProgressSnapshotKey("", run, digest)
         == "operations/" + run + "/progress/snapshots/sha256-" + digest + "/progress.json"
  {
    assert "/" + "progress/snapshots/sha256-" == "/progress/snapshots/sha256-";
    Joined("operations/", run, "/", "progress/snapshots/sha256-", digest, "/progress.json");
  }

  /** The progress keys without a prefix, spelled out. */
  lemma ProgressKeysSpelledOut(run: string, n: nat, attempt: string, digest: string)
    ensures ProgressClaimKey("", run, n, attempt)
         == "operations/" + run + "/progress/claims/sequence-" + PaddedSequence(n) + "/" + (attempt + ".json")
    ensures ProgressPointerKey("", run) == "operations/" + run + "/progress/current.json"
    ensures ProgressSnapshotKey("", run, digest)
         == "operations/" + run + "/progress/snapshots/sha256-" + digest + "/progress.json"
  {
    hide PaddedSequence, ProgressClaimKey, ProgressPointerKey, ProgressSnapshotKey;
    ProgressClaimSpelledOut(run, n, attempt);
    ProgressPointerSpelledOut(run);
    ProgressSnapshotSpelledOut(run, digest);
  }

  /** The checkpoint keys without a prefix, spelled out. */
  lemma CheckpointKeysSpelledOut(run: string, n: nat, attempt: string, digest: string)
    ensures CheckpointClaimKey("", run, n, attempt)
         == run + "/checkpoints/claims/" + ("sequence-" + PaddedSequence(n) + ("/" + (attempt + ".json")))
    ensures CheckpointBundleKey("", run, digest) == run + "/checkpoints/sha256-" + digest + "/checkpoint.hfjob"
    ensures CheckpointPointerKey("", run) == run + "/current.json"
  {
    hide PaddedSequence;
    var padded := PaddedSequence(n);
    assert "/" + "checkpoints/claims/" == "/checkpoints/claims/";
    Joined("", "sequence-", padded, "/" + (attempt + ".json"), "", "");
    assert "/" + "checkpoints/sha256-" == "/checkpoints/sha256-";
    Joined("", run, "/", "checkpoints/sha256-", digest, "/checkpoint.hfjob");
    assert "/" + "current.json" == "/current.json";
  }
}
