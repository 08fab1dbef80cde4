/**
 The checkpoint chain of a run, rebuilt from its claims on every commit and restore.

 The loader collects the listed claims, groups them by sequence, and walks the sequences in order.
 Here it is proved to compute what a declarative reading of the claims says.
 */
module CheckpointChain {
  import opened Prelude
  import opened ClaimKeys
  import Bundle

  type Bytes = Bundle.Bytes

  datatype Ref = Ref(bucket: string, key: string, sha256: string, bytes: nat)

  datatype Claim = Claim(
    run: string, attempt: string, sequence: nat, plan: string, previous: Option<string>, checkpoint: Ref,
    createdAt: int)

  /** What identifies the claims of one coordinator's run, and the parser of claim documents. */
  datatype Config = Config(prefix: string, run: string, plan: string, parse: Bytes -> Option<Claim>)

  datatype ChainError = Disappeared | Unreadable | IdentityMismatch | PathMismatch | MustStartAtOne | Gap | Conflict

  // ---------------------------------------------------------------------------------------------
  // Which listed keys are claims

  const CLAIM_MARK := "/checkpoints/claims/sequence-"

  predicate IsDigit(c: char) {
    '0' <= c <= '9'
  }

  /** The text ends as a claim path does: mark, sixteen digits, a separator and a JSON file name. */
  predicate ClaimEnding(text: string) {
    var name := |CLAIM_MARK| + CLAIM_DIGITS + 1;
    && |text| > name + |".json"|
    && text[..|CLAIM_MARK|] == CLAIM_MARK
    && (forall i :: |CLAIM_MARK| <= i < name - 1 ==> IsDigit(text[i]))
    && text[name - 1] == '/'
    && '/' !in text[name..]
    && text[|text| - |".json"|..] == ".json"
  }

  predicate LooksLikeClaim(key: string) {
    exists i :: 0 <= i <= |key| && ClaimEnding(("/" + key)[i..])
  }

  /** A claim path spelled out: the mark, sixteen digits, and a JSON file in the directory they name. */
  ghost predicate SpellsClaim(text: string, before: string, digits: string, name: string) {
    && text == before + CLAIM_MARK + digits + "/" + name + ".json"
    && |digits| == 16 && (forall i :: 0 <= i < 16 ==> '0' <= digits[i] <= '9')
    && name != "" && '/' !in name
  }

  lemma Cut(text: string, i: nat, a: nat, b: nat, c: nat, d: nat)
    requires i <= a <= b <= c <= d <= |text|
    ensures text == text[..i] + text[i..a] + text[a..b] + text[b..c] + text[c..d] + text[d..]
  {
  }

  lemma Pieces(before: string, mark: string, digits: string, slash: string, name: string, json: string)
    ensures var rest := (before + mark + digits + slash + name + json)[|before|..];
            var (a, b, c) := (|mark|, |mark| + |digits|, |mark| + |digits| + |slash|);
            && |rest| == c + |name| + |json| && rest[..a] == mark && rest[a..b] == digits && rest[b..c] == slash
            && rest[c..] == name + json && rest[c + |name|..] == json
  {
  }

  lemma EndingIsPath(text: string, i: nat)
    requires i <= |text| && ClaimEnding(text[i..])
    ensures exists before, digits, name :: SpellsClaim(text, before, digits, name)
  {
    hide CLAIM_MARK;
    var m, n := |CLAIM_MARK|, |text|;
    assert i + m + 17 < n - 5;
    var digits, name := text[i + m..i + m + 16], text[i + m + 17..n - 5];
    EndingSlices(text, i, digits, name);
    Cut(text, i, i + m, i + m + 16, i + m + 17, n - 5);
    hide ClaimEnding;
    assert SpellsClaim(text, text[..i], digits, name);
  }

  lemma EndingSlices(text: string, i: nat, digits: string, name: string)
    requires i <= |text| && ClaimEnding(text[i..])
    requires var m := |CLAIM_MARK|; digits == text[i + m..i + m + 16] && name == text[i + m + 17..|text| - 5]
    ensures var m, n := |CLAIM_MARK|, |text|;
            && text[i..i + m] == CLAIM_MARK && text[i + m + 16..i + m + 17] == "/" && text[n - 5..] == ".json"
            && (forall k :: 0 <= k < 16 ==> '0' <= digits[k] <= '9') && '/' !in name
  {
    hide CLAIM_MARK;
    var m, rest := |CLAIM_MARK|, text[i..];
    assert text[i..i + m] == rest[..m] && text[|text| - 5..] == rest[|rest| - 5..];
    assert text[i + m + 16] == rest[m + 16];
    forall k | 0 <= k < 16 ensures '0' <= digits[k] <= '9' {
      assert digits[k] == rest[m + k];
      assert IsDigit(rest[m + k]);
    }
    forall c | c in name ensures c in rest[m + 17..] {
      var k :| 0 <= k < |name| && name[k] == c;
      assert rest[m + 17..][k] == c;
    }
  }

  lemma PathIsEnding(text: string, before: string, digits: string, name: string)
    requires SpellsClaim(text, before, digits, name)
    ensures |before| < |text| && ClaimEnding(text[|before|..])
  {
    hide CLAIM_MARK;
    var rest, m := text[|before|..], |CLAIM_MARK|;
    Pieces(before, CLAIM_MARK, digits, "/", name, ".json");
    forall i | m <= i < m + 16 ensures IsDigit(rest[i]) {
      assert rest[i] == rest[m..m + 16][i - m];
    }
    assert rest[m + 16] == rest[m + 16..m + 17][0];
  }

  /** Exactly the keys that spell a claim path below some directory are read as claims. */
  lemma ClaimLookMeans(key: string)
    ensures LooksLikeClaim(key) <==> exists before, digits, name :: SpellsClaim("/" + key, before, digits, name)
  {
    var text := "/" + key;
    if LooksLikeClaim(key) {
      var i :| 0 <= i <= |key| && ClaimEnding(text[i..]);
      EndingIsPath(text, i);
    }
    if before, digits, name :| SpellsClaim(text, before, digits, name) {
      PathIsEnding(text, before, digits, name);
    }
  }

  lemma {:induction false} FixedIsDigits(n: nat, width: nat)
    ensures |Fixed(n, width)| == width && forall i :: 0 <= i < width ==> IsDigit(Fixed(n, width)[i])
  {
    if width > 0 { FixedIsDigits(n / 10, width - 1); }
  }

  /** The loader never overlooks a claim at its canonical key. */
  lemma CanonicalKeysLookLikeClaims(prefix: string, run: string, sequence: nat, attempt: string)
    requires SafeId(attempt) && sequence <= MAX_SAFE_INTEGER
    ensures LooksLikeClaim(CheckpointClaimKey(prefix, run, sequence, attempt))
  {
    var digits := PaddedSequence(sequence);
    SafeSequencesFit(sequence);
    PadIsFixed(sequence, CLAIM_DIGITS);
    FixedIsDigits(sequence, CLAIM_DIGITS);
    EndingShape(digits, attempt);
    EndingFound(Root(prefix) + run, digits + ("/" + (attempt + ".json")));
    SlashesMove(Root(prefix), run, digits + ("/" + (attempt + ".json")));
  }

  lemma EndingFound(front: string, back: string)
    requires ClaimEnding(CLAIM_MARK + back)
    ensures LooksLikeClaim(front + (CLAIM_MARK + back))
  {
    var at := |front| + 1;
    assert ("/" + (front + (CLAIM_MARK + back)))[at..] == CLAIM_MARK + back;
  }

  lemma SlashesMove(root: string, run: string, back: string)
    ensures root + (run + ("/" + "checkpoints/claims/")) + ("sequence-" + back) == root + run + (CLAIM_MARK + back)
  {
    assert CLAIM_MARK == "/" + "checkpoints/claims/" + "sequence-";
  }

  lemma JoinedParts(mark: string, digits: string, name: string)
    ensures var text := mark + (digits + ("/" + name));
            var at := |mark| + |digits|;
            && |text| == at + 1 + |name| && text[..|mark|] == mark && text[at] == '/' && text[at + 1..] == name
            && forall i :: |mark| <= i < at ==> text[i] == digits[i - |mark|]
  {
  }

  lemma EndingShape(digits: string, attempt: string)
    requires |digits| == CLAIM_DIGITS && (forall i :: 0 <= i < |digits| ==> IsDigit(digits[i])) && SafeId(attempt)
    ensures ClaimEnding(CLAIM_MARK + (digits + ("/" + (attempt + ".json"))))
  {
    var name := attempt + ".json";
    SafeIdHasNoSlash(attempt);
    assert '/' !in name;
    EndingParts(CLAIM_MARK + (digits + ("/" + name)), digits, attempt);
  }

  lemma EndingParts(text: string, digits: string, attempt: string)
    requires |digits| == CLAIM_DIGITS && (forall i :: 0 <= i < |digits| ==> IsDigit(digits[i]))
    requires text == CLAIM_MARK + (digits + ("/" + (attempt + ".json"))) && '/' !in attempt + ".json" && attempt != ""
    ensures ClaimEnding(text)
  {
    hide IsDigit;
    var name := attempt + ".json";
    JoinedParts(CLAIM_MARK, digits, name);
    assert name[|attempt|..] == ".json";
    SameEnding(text, |CLAIM_MARK| + |digits| + 1, name, 5);
  }

  lemma SameEnding(text: string, from: nat, name: string, k: nat)
    requires from <= |text| && text[from..] == name && k <= |name|
    ensures text[|text| - k..] == name[|name| - k..]
  {
  }

  // ---------------------------------------------------------------------------------------------
  // What a chain is

  function KeyOf(prefix: string, claim: Claim): string {
    CheckpointClaimKey(prefix, claim.run, claim.sequence, claim.attempt)
  }

  function Doc(cfg: Config, objects: map<string, Bytes>, key: string): Result<Claim, ChainError> {
    if key !in objects then Err(Disappeared)
    else match cfg.parse(objects[key])
      case None => Err(Unreadable)
      case Some(claim) =>
        if claim.run != cfg.run || claim.plan != cfg.plan then Err(IdentityMismatch)
        else if key != KeyOf(cfg.prefix, claim) then Err(PathMismatch)
        else Ok(claim)
  }

  ghost predicate AllReadable(cfg: Config, objects: map<string, Bytes>, keys: seq<string>) {
    forall k :: k in keys && LooksLikeClaim(k) ==> Doc(cfg, objects, k).Ok?
  }

  ghost function ClaimsIn(cfg: Config, objects: map<string, Bytes>, keys: seq<string>): set<Claim> {
    set k | k in keys && LooksLikeClaim(k) && Doc(cfg, objects, k).Ok? :: Doc(cfg, objects, k).value
  }

  function Predecessor(refs: seq<Ref>, sequence: nat): Option<string>
    requires 1 <= sequence <= |refs| + 1
  {
    if sequence == 1 then None else Some(refs[sequence - 2].sha256)
  }

  ghost predicate FitsChain(c: Claim, refs: seq<Ref>) {
    1 <= c.sequence <= |refs| && c.checkpoint == refs[c.sequence - 1] && c.previous == Predecessor(refs, c.sequence)
  }

  ghost predicate Occupied(claims: set<Claim>, n: nat) {
    exists c :: c in claims && c.sequence == n
  }

  /** Sequences are exactly 1..n, with one reference each, linked by predecessor digests. */
  ghost predicate Chained(claims: set<Claim>, refs: seq<Ref>) {
    && (forall c :: c in claims ==> FitsChain(c, refs))
    && (forall n :: 1 <= n <= |refs| ==> Occupied(claims, n))
  }

  ghost predicate Contiguous(claims: set<Claim>) {
    forall c :: c in claims ==> c.sequence >= 1 && (c.sequence == 1 || Occupied(claims, c.sequence - 1))
  }

  ghost function Chain(claims: set<Claim>): (r: Option<seq<Ref>>)
    ensures r.Some? ==> Chained(claims, r.value)
  {
    if exists refs :: Chained(claims, refs) then
      var refs :| Chained(claims, refs);
      Some(refs)
    else None
  }

  lemma SameRefAt(a: set<Claim>, b: set<Claim>, ra: seq<Ref>, rb: seq<Ref>, i: nat)
    requires a <= b && Chained(a, ra) && Chained(b, rb) && i < |ra|
    ensures i < |rb| && ra[i] == rb[i]
  {
    assert Occupied(a, i + 1);
    var c :| c in a && c.sequence == i + 1;
    assert FitsChain(c, ra) && FitsChain(c, rb);
  }

  /** Log prefix: with more claims, a chain can only grow at its end. */
  lemma ChainExtends(a: set<Claim>, b: set<Claim>, ra: seq<Ref>, rb: seq<Ref>)
    requires a <= b && Chained(a, ra) && Chained(b, rb)
    ensures ra <= rb
  {
    if ra != [] { SameRefAt(a, b, ra, rb, |ra| - 1); }
    forall i | 0 <= i < |ra| ensures i < |rb| && ra[i] == rb[i] { SameRefAt(a, b, ra, rb, i); }
  }

  lemma ChainIs(claims: set<Claim>, refs: seq<Ref>)
    requires Chained(claims, refs)
    ensures Chain(claims) == Some(refs)
  {
    var found := Chain(claims).value;
    ChainExtends(claims, claims, refs, found);
    ChainExtends(claims, claims, found, refs);
    assert refs == found;
  }

  // ---------------------------------------------------------------------------------------------
  // The loader

  /** What the loader finds does not depend on the order of the listing. */
  ghost function ListedChain(cfg: Config, objects: map<string, Bytes>, keys: seq<string>): Option<seq<Ref>> {
    if AllReadable(cfg, objects, keys) then Chain(ClaimsIn(cfg, objects, keys)) else None
  }

  lemma ListingOrderIrrelevant(cfg: Config, objects: map<string, Bytes>, keys: seq<string>, other: seq<string>)
    requires IsPermutation(keys, other)
    ensures ListedChain(cfg, objects, keys) == ListedChain(cfg, objects, other)
  {
    SameElements(keys, other);
    assert ClaimsIn(cfg, objects, keys) == ClaimsIn(cfg, objects, other);
  }

  function Checkpoints(claims: seq<Claim>): (refs: seq<Ref>)
    ensures |refs| == |claims| && forall i :: 0 <= i < |claims| ==> refs[i] == claims[i].checkpoint
  {
    if claims == [] then [] else Checkpoints(claims[..|claims| - 1]) + [claims[|claims| - 1].checkpoint]
  }

  /** The error is that of the first listed claim that cannot be accepted. */
  ghost predicate FirstUnreadable(cfg: Config, objects: map<string, Bytes>, keys: seq<string>, error: ChainError) {
    exists i :: 0 <= i < |keys| && LooksLikeClaim(keys[i]) && Doc(cfg, objects, keys[i]) == Err(error)
                && AllReadable(cfg, objects, keys[..i])
  }

  /** Readable claims fail for missing sequence 1, or for a later gap, or else for a conflict. */
  ghost predicate ChainFailure(claims: set<Claim>, error: ChainError) {
    && (error == MustStartAtOne || error == Gap || error == Conflict)
    && (error == MustStartAtOne <==> !Occupied(claims, 1) || Occupied(claims, 0))
    && (Contiguous(claims) ==> error == Conflict)
  }

  /** The whole history of a run, or the reason it cannot be trusted. */
  method LoadChain(cfg: Config, objects: map<string, Bytes>, keys: seq<string>)
    returns (r: Result<seq<Claim>, ChainError>)
    ensures r.Ok? <==> ListedChain(cfg, objects, keys).Some?
    ensures r.Ok? ==> ListedChain(cfg, objects, keys) == Some(Checkpoints(r.value))
    ensures r.Ok? ==> forall i :: 0 <= i < |r.value| ==>
              r.value[i] in ClaimsIn(cfg, objects, keys) && r.value[i].sequence == i + 1
    ensures r.Err? && !AllReadable(cfg, objects, keys) ==> FirstUnreadable(cfg, objects, keys, r.error)
    ensures r.Err? && AllReadable(cfg, objects, keys) ==> ChainFailure(ClaimsIn(cfg, objects, keys), r.error)
  {
    var claims := Collect(cfg, objects, keys);
    if claims.Err? { return Err(claims.error); }
    assert (set c | c in claims.value) == ClaimsIn(cfg, objects, keys);
    hide AllReadable, ClaimsIn, Chain, ChainFailure, FirstUnreadable;
    r := ChainOf(claims.value);
  }

  /** Groups the claims by sequence and walks the sequences in order. */
  method ChainOf(claims: seq<Claim>) returns (r: Result<seq<Claim>, ChainError>)
    ensures var all := (set c | c in claims);
            && (r.Ok? <==> Chain(all).Some?)
            && (r.Ok? ==> Chain(all) == Some(Checkpoints(r.value)))
            && (r.Ok? ==> forall i :: 0 <= i < |r.value| ==> r.value[i] in all && r.value[i].sequence == i + 1)
            && (r.Err? ==> ChainFailure(all, r.error))
  {
    ghost var all := (set c | c in claims);
    var bySequence := Group(claims);
    var numbers := SortedNumbers(bySequence.Keys);
    GroupedNumbers(all, bySequence, numbers);
    hide Grouped, Chain, Contiguous;
    if numbers == [] {
      NoClaims(all);
      assert Checkpoints([]) == [];
      return Ok([]);
    }
    if numbers[0] != 1 {
      MissesOne(all, numbers);
      assert numbers[0] == 0 ==> 0 in numbers;
      return Err(MustStartAtOne);
    }
    assert 1 in numbers && 0 !in numbers;
    r := WalkSequences(all, bySequence, numbers);
  }

  method Collect(cfg: Config, objects: map<string, Bytes>, keys: seq<string>)
    returns (r: Result<seq<Claim>, ChainError>)
    ensures r.Ok? <==> AllReadable(cfg, objects, keys)
    ensures r.Err? ==> FirstUnreadable(cfg, objects, keys, r.error)
    ensures r.Ok? ==> forall c :: c in r.value <==> c in ClaimsIn(cfg, objects, keys)
  {
    var claims: seq<Claim> := [];
    for i := 0 to |keys|
      invariant AllReadable(cfg, objects, keys[..i])
      invariant forall c :: c in claims <==> c in ClaimsIn(cfg, objects, keys[..i])
    {
      var key := keys[i];
      assert keys[..i + 1] == keys[..i] + [key];
      if LooksLikeClaim(key) {
        if key !in objects { return Err(Disappeared); }
        var claim := cfg.parse(objects[key]);
        if claim.None? { return Err(Unreadable); }
        if claim.value.run != cfg.run || claim.value.plan != cfg.plan { return Err(IdentityMismatch); }
        if key != KeyOf(cfg.prefix, claim.value) { return Err(PathMismatch); }
        claims := claims + [claim.value];
      }
    }
    assert keys[..|keys|] == keys;
    r := Ok(claims);
  }

  ghost predicate Grouped(all: set<Claim>, bySequence: map<nat, seq<Claim>>) {
    && (forall c :: c in all ==> c.sequence in bySequence)
    && (forall n :: n in bySequence ==> bySequence[n] != [])
    && (forall n :: n in bySequence ==> forall c :: c in bySequence[n] <==> c in all && c.sequence == n)
  }

  lemma OneMoreGrouped(all: set<Claim>, bySequence: map<nat, seq<Claim>>, claim: Claim)
    requires Grouped(all, bySequence)
    ensures var values := if claim.sequence in bySequence then bySequence[claim.sequence] else [];
            Grouped(all + {claim}, bySequence[claim.sequence := values + [claim]])
  {
  }

  method Group(claims: seq<Claim>) returns (bySequence: map<nat, seq<Claim>>)
    ensures Grouped((set c | c in claims), bySequence)
  {
    bySequence := map[];
    for i := 0 to |claims|
      invariant Grouped((set c | c in claims[..i]), bySequence)
    {
      var claim := claims[i];
      var values := if claim.sequence in bySequence then bySequence[claim.sequence] else [];
      OneMoreGrouped((set c | c in claims[..i]), bySequence, claim);
      bySequence := bySequence[claim.sequence := values + [claim]];
      assert claims[..i + 1] == claims[..i] + [claim];
      assert (set c {:trigger c in claims[..i + 1]} | c in claims[..i + 1]) == (set c | c in claims[..i]) + {claim};
    }
    assert claims[..|claims|] == claims;
  }

  ghost predicate Increasing(numbers: seq<nat>) {
    forall i, j :: 0 <= i < j < |numbers| ==> numbers[i] < numbers[j]
  }

  method SortedNumbers(numbers: set<nat>) returns (sorted: seq<nat>)
    ensures Increasing(sorted) && forall n :: n in sorted <==> n in numbers
  {
    sorted := [];
    var rest := numbers;
    while rest != {}
      invariant Increasing(sorted) && rest <= numbers
      invariant forall n :: n in numbers <==> n in sorted || n in rest
      invariant forall i, n :: 0 <= i < |sorted| && n in rest ==> sorted[i] < n
      decreases rest
    {
      var least := Least(rest);
      sorted := sorted + [least];
      rest := rest - {least};
    }
  }

  method Least(numbers: set<nat>) returns (least: nat)
    requires numbers != {}
    ensures least in numbers && forall n :: n in numbers ==> least <= n
  {
    least :| least in numbers;
    var rest := numbers - {least};
    while rest != {}
      invariant rest <= numbers && least in numbers && forall n :: n in numbers ==> n in rest || least <= n
      decreases rest
    {
      var n :| n in rest;
      if n < least { least := n; }
      rest := rest - {n};
    }
  }

  /** A chain has no holes below any of its claims. */
  lemma ChainedBelow(all: set<Claim>, refs: seq<Ref>, c: Claim)
    requires Chained(all, refs) && c in all
    ensures c.sequence >= 1 && forall n :: 1 <= n <= c.sequence ==> Occupied(all, n)
  {
    assert FitsChain(c, refs);
  }

  /** The listed sequence numbers, each once and in order. */
  ghost predicate NumbersOf(all: set<Claim>, numbers: seq<nat>) {
    Increasing(numbers) && forall n :: n in numbers <==> Occupied(all, n)
  }

  lemma GroupedNumbers(all: set<Claim>, bySequence: map<nat, seq<Claim>>, numbers: seq<nat>)
    requires Grouped(all, bySequence) && Increasing(numbers) && forall n :: n in numbers <==> n in bySequence
    ensures NumbersOf(all, numbers)
  {
    forall n ensures n in numbers <==> Occupied(all, n) {
      if n in bySequence {
        assert bySequence[n][0] in all && bySequence[n][0].sequence == n;
      }
    }
  }

  lemma NoClaims(all: set<Claim>)
    requires NumbersOf(all, [])
    ensures Chain(all) == Some([])
  {
    forall c ensures c !in all {
      if c in all { assert Occupied(all, c.sequence); }
    }
    ChainIs(all, []);
  }

  /** Every chain of these claims starts at 1, so a listing that does not start there has none. */
  lemma MissesOne(all: set<Claim>, numbers: seq<nat>)
    requires NumbersOf(all, numbers) && numbers != [] && numbers[0] != 1
    ensures Chain(all) == None && !Contiguous(all)
    ensures numbers[0] > 1 ==> !Occupied(all, 1)
  {
    assert numbers[0] in numbers;
    var c :| c in all && c.sequence == numbers[0];
    assert 1 !in numbers || numbers[0] == 0;
    assert numbers[0] > 1 ==> !Occupied(all, 1) && !Occupied(all, numbers[0] - 1);
    if Chain(all).Some? {
      ChainedBelow(all, Chain(all).value, c);
    }
  }

  /** The first sequences have no gap, and the chain holds a claim of each. */
  ghost predicate OneOfEach(all: set<Claim>, numbers: seq<nat>, chain: seq<Claim>) {
    && |chain| <= |numbers|
    && forall i :: 0 <= i < |chain| ==> numbers[i] == i + 1 && chain[i] in all && chain[i].sequence == i + 1
  }

  /** No claim of the first sequences disagrees with these references. */
  ghost predicate AllFit(all: set<Claim>, refs: seq<Ref>) {
    forall c :: c in all && c.sequence <= |refs| ==> FitsChain(c, refs)
  }

  /** The first sequences, walked without a gap or a conflict. */
  ghost predicate Walked(all: set<Claim>, numbers: seq<nat>, chain: seq<Claim>) {
    OneOfEach(all, numbers, chain) && AllFit(all, Checkpoints(chain))
  }

  /** The claims of the next sequence, unless the sequence is missing or they disagree. */
  method WalkOne(
      ghost all: set<Claim>, bySequence: map<nat, seq<Claim>>, numbers: seq<nat>, chain: seq<Claim>,
      previous: Option<string>)
    returns (r: Result<Claim, ChainError>)
    requires Grouped(all, bySequence) && NumbersOf(all, numbers) && (forall n :: n in numbers ==> n in bySequence)
    requires numbers != [] && numbers[0] == 1 && Walked(all, numbers, chain) && |chain| < |numbers|
    requires previous == Predecessor(Checkpoints(chain), |chain| + 1)
    ensures r.Ok? ==> Walked(all, numbers, chain + [r.value])
    ensures r.Ok? ==> Predecessor(Checkpoints(chain + [r.value]), |chain| + 2) == Some(r.value.checkpoint.sha256)
    ensures r.Err? ==> Chain(all) == None && r.error in {Gap, Conflict} && (Contiguous(all) ==> r.error == Conflict)
  {
    var sequence := numbers[|chain|];
    if sequence != |chain| + 1 {
      GapBreaks(all, numbers, chain);
      return Err(Gap);
    }
    assert sequence in numbers;
    var candidates := bySequence[sequence];
    var reference := candidates[0].checkpoint;
    if exists c :: c in candidates && (c.checkpoint != reference || c.previous != previous) {
      var c :| c in candidates && (c.checkpoint != reference || c.previous != previous);
      ConflictBreaks(all, numbers, chain, candidates[0], c);
      return Err(Conflict);
    }
    WalkedOn(all, numbers, chain, candidates[0]);
    r := Ok(candidates[0]);
  }

  method WalkSequences(ghost all: set<Claim>, bySequence: map<nat, seq<Claim>>, numbers: seq<nat>)
    returns (r: Result<seq<Claim>, ChainError>)
    requires Grouped(all, bySequence) && NumbersOf(all, numbers) && (forall n :: n in numbers ==> n in bySequence)
    requires numbers != [] && numbers[0] == 1
    ensures r.Ok? <==> Chain(all).Some?
    ensures r.Ok? ==> Chain(all) == Some(Checkpoints(r.value))
    ensures r.Ok? ==> forall i :: 0 <= i < |r.value| ==> r.value[i] in all && r.value[i].sequence == i + 1
    ensures r.Err? ==> r.error in {Gap, Conflict} && (Contiguous(all) ==> r.error == Conflict)
  {
    hide Chain, NumbersOf, Grouped, Contiguous, Walked;
    var chain: seq<Claim> := [];
    var previous: Option<string> := None;
    NothingAtZero(all, numbers);
    for index := 0 to |numbers|
      invariant |chain| == index && Walked(all, numbers, chain)
      invariant previous == Predecessor(Checkpoints(chain), index + 1)
    {
      var next :- WalkOne(all, bySequence, numbers, chain, previous);
      chain := chain + [next];
      previous := Some(next.checkpoint.sha256);
    }
    WalkedAll(all, numbers, chain);
    r := Ok(chain);
  }

  lemma NothingAtZero(all: set<Claim>, numbers: seq<nat>)
    requires NumbersOf(all, numbers) && numbers != [] && numbers[0] == 1
    ensures Walked(all, numbers, [])
  {
    forall c | c in all ensures c.sequence >= 1 {
      assert Occupied(all, c.sequence);
    }
  }

  lemma FitsLonger(c: Claim, refs: seq<Ref>, next: Ref)
    requires FitsChain(c, refs)
    ensures FitsChain(c, refs + [next])
  {
  }

  lemma FitsAtEnd(c: Claim, refs: seq<Ref>)
    requires c.sequence == |refs| + 1 && c.previous == Predecessor(refs, c.sequence)
    ensures FitsChain(c, refs + [c.checkpoint])
  {
  }

  lemma CheckpointsGrow(chain: seq<Claim>, next: Claim)
    ensures Checkpoints(chain + [next]) == Checkpoints(chain) + [next.checkpoint]
  {
  }

  /** Claims that fit a chain, and claims that agree on its next reference, fit the longer chain. */
  lemma AllFitLonger(all: set<Claim>, refs: seq<Ref>, next: Claim)
    requires AllFit(all, refs)
    requires forall c :: c in all && c.sequence == |refs| + 1 ==>
               c.checkpoint == next.checkpoint && c.previous == Predecessor(refs, |refs| + 1)
    ensures AllFit(all, refs + [next.checkpoint])
  {
    hide FitsChain;
    forall c | c in all && c.sequence <= |refs| + 1 ensures FitsChain(c, refs + [next.checkpoint]) {
      if c.sequence <= |refs| { FitsLonger(c, refs, next.checkpoint); } else { FitsAtEnd(c, refs); }
    }
  }

  lemma WalkedOn(all: set<Claim>, numbers: seq<nat>, chain: seq<Claim>, next: Claim)
    requires Walked(all, numbers, chain) && |chain| < |numbers| && numbers[|chain|] == |chain| + 1
    requires next in all && next.sequence == |chain| + 1
    requires forall c :: c in all && c.sequence == |chain| + 1 ==>
               c.checkpoint == next.checkpoint && c.previous == Predecessor(Checkpoints(chain), |chain| + 1)
    ensures Walked(all, numbers, chain + [next])
    ensures Predecessor(Checkpoints(chain + [next]), |chain| + 2) == Some(next.checkpoint.sha256)
  {
    CheckpointsGrow(chain, next);
    AllFitLonger(all, Checkpoints(chain), next);
    OneMoreOfEach(all, numbers, chain, next);
    hide AllFit, OneOfEach, FitsChain;
  }

  lemma OneMoreOfEach(all: set<Claim>, numbers: seq<nat>, chain: seq<Claim>, next: Claim)
    requires OneOfEach(all, numbers, chain) && |chain| < |numbers| && numbers[|chain|] == |chain| + 1
    requires next in all && next.sequence == |chain| + 1
    ensures OneOfEach(all, numbers, chain + [next])
  {
  }

  lemma WalkedAll(all: set<Claim>, numbers: seq<nat>, chain: seq<Claim>)
    requires NumbersOf(all, numbers) && Walked(all, numbers, chain) && |chain| == |numbers|
    ensures Chain(all) == Some(Checkpoints(chain))
    ensures forall i :: 0 <= i < |chain| ==> chain[i] in all && chain[i].sequence == i + 1
  {
    hide FitsChain;
    var refs := Checkpoints(chain);
    forall c | c in all ensures FitsChain(c, refs) {
      assert Occupied(all, c.sequence);
      assert c.sequence in numbers;
    }
    forall n | 1 <= n <= |refs| ensures Occupied(all, n) {
      assert chain[n - 1] in all;
    }
    ChainIs(all, refs);
  }

  lemma ContiguousBelow(all: set<Claim>, c: Claim)
    requires Contiguous(all) && c in all
    ensures c.sequence >= 1 && (c.sequence == 1 || Occupied(all, c.sequence - 1))
  {
  }

  lemma GapBreaks(all: set<Claim>, numbers: seq<nat>, chain: seq<Claim>)
    requires NumbersOf(all, numbers) && numbers != [] && numbers[0] == 1
    requires OneOfEach(all, numbers, chain) && |chain| < |numbers| && numbers[|chain|] != |chain| + 1
    ensures Chain(all) == None && !Contiguous(all)
  {
    hide Contiguous, Chained;
    var k := |chain|;
    assert numbers[k - 1] == k;
    assert numbers[k] in numbers;
    assert Occupied(all, numbers[k]);
    assert !Occupied(all, k + 1) && !Occupied(all, numbers[k] - 1);
    var c :| c in all && c.sequence == numbers[k];
    if Chain(all).Some? {
      ChainedBelow(all, Chain(all).value, c);
    } else if Contiguous(all) {
      ContiguousBelow(all, c);
    }
  }

  lemma ConflictBreaks(all: set<Claim>, numbers: seq<nat>, chain: seq<Claim>, first: Claim, other: Claim)
    requires OneOfEach(all, numbers, chain)
    requires first in all && other in all && first.sequence == other.sequence == |chain| + 1
    requires other.checkpoint != first.checkpoint || other.previous != Predecessor(Checkpoints(chain), |chain| + 1)
    ensures Chain(all) == None
  {
    if Chain(all).Some? {
      ChainAgrees(all, Chain(all).value, chain, first, other);
    }
  }

  lemma ChainAgrees(all: set<Claim>, refs: seq<Ref>, chain: seq<Claim>, first: Claim, other: Claim)
    requires Chained(all, refs)
    requires chain != [] ==> chain[|chain| - 1] in all && chain[|chain| - 1].sequence == |chain|
    requires first in all && other in all && first.sequence == other.sequence == |chain| + 1
    ensures first.checkpoint == other.checkpoint && other.previous == Predecessor(Checkpoints(chain), |chain| + 1)
  {
    hide *;
    FitsAsSaid(all, refs, first);
    FitsAsSaid(all, refs, other);
    if chain != [] {
      FitsAsSaid(all, refs, chain[|chain| - 1]);
    }
    PredecessorIs(chain);
    PredecessorAt(refs, |chain| + 1);
  }

  lemma FitsAsSaid(all: set<Claim>, refs: seq<Ref>, c: Claim)
    requires Chained(all, refs) && c in all
    ensures 1 <= c.sequence <= |refs| && c.checkpoint == refs[c.sequence - 1]
    ensures c.previous == Predecessor(refs, c.sequence)
  {
    assert FitsChain(c, refs);
  }

  lemma PredecessorAt(refs: seq<Ref>, n: nat)
    requires 1 <= n <= |refs| + 1
    ensures Predecessor(refs, n) == if n == 1 then None else Some(refs[n - 2].sha256)
  {
  }

  lemma PredecessorIs(chain: seq<Claim>)
    ensures |Checkpoints(chain)| == |chain|
    ensures Predecessor(Checkpoints(chain), |chain| + 1)
         == if chain == [] then None else Some(chain[|chain| - 1].checkpoint.sha256)
  {
  }
}
