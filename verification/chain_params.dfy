/** Network parameters, patches, roles and the parameter registry as a value. */
module ChainParams {
  import opened MachineInts

  // ---- Parameters and patches ----

  datatype Params = Params(maxBlockBodyBytes: U64, minBaseFee: U64, maxTransactionsPerBlock: U32)

  /** Unset fields keep the previous value. */
  datatype Patch = Patch(maxBlockBodyBytes: Option<U64>, minBaseFee: Option<U64>, maxTransactionsPerBlock: Option<U32>)

  const NO_CHANGE: Patch := Patch(None, None, None)

  function UnwrapOr<T>(o: Option<T>, default: T): T { if o.Some? then o.value else default }

  function Apply(p: Params, patch: Patch): Params {
    Params(UnwrapOr(patch.maxBlockBodyBytes, p.maxBlockBodyBytes),
           UnwrapOr(patch.minBaseFee, p.minBaseFee),
           UnwrapOr(patch.maxTransactionsPerBlock, p.maxTransactionsPerBlock))
  }

  function Later<T>(first: Option<T>, second: Option<T>): Option<T> { if second.Some? then second else first }

  /** `merge_patches`: fields of `add` win. */
  function Merge(into: Patch, add: Patch): Patch {
    Patch(Later(into.maxBlockBodyBytes, add.maxBlockBodyBytes),
          Later(into.minBaseFee, add.minBaseFee),
          Later(into.maxTransactionsPerBlock, add.maxTransactionsPerBlock))
  }

  predicate HasChanges(p: Patch) {
    p.maxBlockBodyBytes.Some? || p.minBaseFee.Some? || p.maxTransactionsPerBlock.Some?
  }

  /** The three parameters by name, to speak about one of them. */
  datatype Field = MaxBlockBodyBytes | MinBaseFee | MaxTransactionsPerBlock

  function Value(p: Params, f: Field): int {
    match f
    case MaxBlockBodyBytes => p.maxBlockBodyBytes
    case MinBaseFee => p.minBaseFee
    case MaxTransactionsPerBlock => p.maxTransactionsPerBlock
  }

  function Wanted(p: Patch, f: Field): Option<int> {
    match f
    case MaxBlockBodyBytes => p.maxBlockBodyBytes
    case MinBaseFee => p.minBaseFee
    case MaxTransactionsPerBlock => p.maxTransactionsPerBlock
  }

  lemma {:induction false} SamePatch(p: Patch, q: Patch)
    requires forall f: Field :: Wanted(p, f) == Wanted(q, f)
    ensures p == q
  {
    assert Wanted(p, MaxBlockBodyBytes) == Wanted(q, MaxBlockBodyBytes);
    assert Wanted(p, MinBaseFee) == Wanted(q, MinBaseFee);
    assert Wanted(p, MaxTransactionsPerBlock) == Wanted(q, MaxTransactionsPerBlock);
  }

  /** A patch has changes exactly if it can change the parameters at all. */
  lemma {:induction false} HasChangesIff(patch: Patch)
    ensures HasChanges(patch) <==> exists p: Params :: Apply(p, patch) != p
  {
    if HasChanges(patch) {
      var p := Params(if patch.maxBlockBodyBytes == Some(0) then 1 else 0,
                      if patch.minBaseFee == Some(0) then 1 else 0,
                      if patch.maxTransactionsPerBlock == Some(0) then 1 else 0);
      assert Apply(p, patch) != p;
    }
  }

  // ---- Identifiers ----

  /** The characters `str::trim` removes: Unicode White_Space. */
  predicate IsWhite(c: char) {
    var n := c as int;
    || 9 <= n <= 13 || n == 32 || n == 0x85 || n == 0xA0 || n == 0x1680 || 0x2000 <= n <= 0x200A
    || n == 0x2028 || n == 0x2029 || n == 0x202F || n == 0x205F || n == 0x3000
  }

  function TrimStart(s: string): string { if s != [] && IsWhite(s[0]) then TrimStart(s[1..]) else s }

  function TrimEnd(s: string): string {
    if s != [] && IsWhite(s[|s| - 1]) then TrimEnd(s[..|s| - 1]) else s
  }

  function LowerChar(c: char): char { if 'A' <= c <= 'Z' then (c as int + 32) as char else c }

  function Lower(s: string): string { seq(|s|, i requires 0 <= i < |s| => LowerChar(s[i])) }

  function Trim(s: string): string { TrimEnd(TrimStart(s)) }

  /** `normalize_id`: trim, then ASCII lower case. */
  function Normalize(s: string): string { Lower(Trim(s)) }

  predicate Trimmed(s: string) { s != [] ==> !IsWhite(s[0]) && !IsWhite(s[|s| - 1]) }

  lemma {:induction false} TrimStartMeaning(s: string)
    ensures var t := TrimStart(s); t != [] ==> !IsWhite(t[0])
  {
    if s != [] && IsWhite(s[0]) {
      TrimStartMeaning(s[1..]);
    }
  }

  lemma {:induction false} TrimEndMeaning(s: string)
    ensures var t := TrimEnd(s);
            && t <= s
            && (t != [] ==> !IsWhite(t[|t| - 1]) && t[0] == s[0])
  {
    if s != [] && IsWhite(s[|s| - 1]) {
      TrimEndMeaning(s[..|s| - 1]);
    }
  }

  /** Normalising is idempotent, so comparing normalised identifiers is an equivalence and role keys,
      vote keys and voters all live in the same space. */
  lemma {:induction false} NormalizeIdempotent(s: string)
    ensures Normalize(Normalize(s)) == Normalize(s)
  {
    TrimStartMeaning(s);
    TrimEndMeaning(TrimStart(s));
    var t := TrimEnd(TrimStart(s));
    assert Trimmed(t);
    var l := Lower(t);
    assert Trimmed(l);
    assert TrimStart(l) == l && TrimEnd(l) == l;
    assert Lower(l) == l;
  }

  // ---- What normalising identifies ----

  predicate AllWhite(s: string) { forall c :: c in s ==> IsWhite(c) }

  /** The same character, or the two cases of one ASCII letter. */
  predicate SameLetter(c: char, d: char) {
    c == d || ('A' <= c <= 'Z' && d as int == c as int + 32) || ('A' <= d <= 'Z' && c as int == d as int + 32)
  }

  predicate SameLetters(s: string, t: string) {
    |s| == |t| && forall i :: 0 <= i < |s| ==> SameLetter(s[i], t[i])
  }

  /** `s` is `core` between white space. */
  ghost predicate Padded(s: string, core: string) {
    exists before: string, after: string :: AllWhite(before) && AllWhite(after) && s == before + core + after
  }

  /** The two identifiers differ at most in surrounding white space and in the case of ASCII letters. */
  ghost predicate Alike(s: string, t: string) {
    exists core: string, core': string :: Padded(s, core) && Padded(t, core') && SameLetters(core, core')
  }

  lemma {:induction false} TrimStartDrops(s: string) returns (before: string)
    ensures AllWhite(before) && s == before + TrimStart(s)
  {
    if s != [] && IsWhite(s[0]) {
      var rest := TrimStartDrops(s[1..]);
      before := [s[0]] + rest;
    } else {
      before := [];
    }
  }

  lemma {:induction false} TrimEndDrops(s: string) returns (after: string)
    ensures AllWhite(after) && s == TrimEnd(s) + after
  {
    if s != [] && IsWhite(s[|s| - 1]) {
      var rest := TrimEndDrops(s[..|s| - 1]);
      after := rest + [s[|s| - 1]];
    } else {
      after := [];
    }
  }

  lemma {:induction false} TrimmedIsPadded(s: string)
    ensures Padded(s, Trim(s))
  {
    var before := TrimStartDrops(s);
    var after := TrimEndDrops(TrimStart(s));
    assert s == before + Trim(s) + after;
  }

  lemma {:induction false} TrimStartSkips(before: string, s: string)
    requires AllWhite(before)
    ensures TrimStart(before + s) == TrimStart(s)
  {
    if before == [] {
      assert before + s == s;
    } else {
      assert (before + s)[1..] == before[1..] + s;
      TrimStartSkips(before[1..], s);
    }
  }

  lemma {:induction false} TrimEndSkips(s: string, after: string)
    requires AllWhite(after)
    ensures TrimEnd(s + after) == TrimEnd(s)
  {
    if after == [] {
      assert s + after == s;
    } else {
      var shorter := after[..|after| - 1];
      assert (s + after)[..|s + after| - 1] == s + shorter;
      TrimEndSkips(s, shorter);
    }
  }

  lemma {:induction false} TrimStartBefore(s: string, after: string)
    requires AllWhite(after)
    ensures TrimEnd(TrimStart(s + after)) == TrimEnd(TrimStart(s))
  {
    if s == [] {
      assert s + after == after + [];
      TrimStartSkips(after, []);
    } else if IsWhite(s[0]) {
      assert (s + after)[1..] == s[1..] + after;
      TrimStartBefore(s[1..], after);
    } else {
      TrimEndSkips(s, after);
    }
  }

  lemma {:induction false} PaddingIsTrimmed(s: string, core: string)
    requires Padded(s, core)
    ensures Trim(s) == Trim(core)
  {
    var before: string, after: string :| AllWhite(before) && AllWhite(after) && s == before + core + after;
    assert s == before + (core + after);
    TrimStartSkips(before, core + after);
    TrimStartBefore(core, after);
  }

  lemma {:induction false} LowerSameWhite(c: char)
    ensures IsWhite(LowerChar(c)) <==> IsWhite(c)
  {
  }

  lemma {:induction false} LowerCommutes(s: string)
    ensures TrimStart(Lower(s)) == Lower(TrimStart(s)) && TrimEnd(Lower(s)) == Lower(TrimEnd(s))
    decreases |s|
  {
    if s != [] {
      var last := |s| - 1;
      LowerSameWhite(s[0]);
      LowerSameWhite(s[last]);
      assert Lower(s)[1..] == Lower(s[1..]) && Lower(s)[..last] == Lower(s[..last]);
      LowerCommutes(s[1..]);
      LowerCommutes(s[..last]);
    }
  }

  lemma {:induction false} SameLetterIff(c: char, d: char)
    ensures SameLetter(c, d) <==> LowerChar(c) == LowerChar(d)
  {
  }

  lemma {:induction false} SameLettersIff(s: string, t: string)
    ensures SameLetters(s, t) <==> Lower(s) == Lower(t)
  {
    hide SameLetter, LowerChar;
    if SameLetters(s, t) {
      forall i | 0 <= i < |s|
        ensures Lower(s)[i] == Lower(t)[i]
      {
        SameLetterIff(s[i], t[i]);
      }
    }
    if Lower(s) == Lower(t) {
      assert |Lower(s)| == |s| && |Lower(t)| == |t|;
      forall i | 0 <= i < |s|
        ensures SameLetter(s[i], t[i])
      {
        assert Lower(s)[i] == Lower(t)[i];
        SameLetterIff(s[i], t[i]);
      }
    }
  }

  /** Two identifiers are taken for the same one if and only if they differ at most in surrounding white space and in
      the case of ASCII letters. */
  lemma {:induction false} SameIdIffAlike(s: string, t: string)
    ensures Normalize(s) == Normalize(t) <==> Alike(s, t)
  {
    hide SameLetters, Padded, TrimStart, TrimEnd, Lower;
    if Normalize(s) == Normalize(t) {
      TrimmedIsPadded(s);
      TrimmedIsPadded(t);
      SameLettersIff(Trim(s), Trim(t));
    }
    if Alike(s, t) {
      var core: string, core': string :| Padded(s, core) && Padded(t, core') && SameLetters(core, core');
      PaddingIsTrimmed(s, core);
      PaddingIsTrimmed(t, core');
      SameLettersIff(core, core');
      LowerOfTrim(core);
      LowerOfTrim(core');
    }
  }

  lemma {:induction false} LowerOfTrim(s: string)
    ensures Lower(Trim(s)) == Trim(Lower(s))
  {
    LowerCommutes(s);
    LowerCommutes(TrimStart(s));
  }

  // ---- Governance configuration and roles ----

  datatype GovernanceConfig =
    | AdminKeys(keys: seq<string>)
    | Dao(members: seq<string>, minApprovals: U32)

  datatype Role = Admin | Operator

  predicate Allows(role: Role, required: Role) { role == Admin || required == Operator }

  predicate HasRole(roles: map<string, Role>, address: string, required: Role) {
    Normalize(address) in roles && Allows(roles[Normalize(address)], required)
  }

  function Ids(names: seq<string>): set<string> { set n | n in names :: Normalize(n) }

  function Elements(names: seq<string>): set<string> { set n | n in names }

  /** The distinct non-blank voters, normalised. */
  function Voices(voters: set<string>): set<string> { (set v | v in voters :: Normalize(v)) - {""} }

  /** `authorize_upgrade`; it depends on the set of voters only. The approval counter is a u32. */
  predicate Authorized(g: GovernanceConfig, proposer: string, voters: set<string>) {
    match g
    case AdminKeys(keys) =>
      && voters <= {""}
      && Normalize(proposer) != ""
      && Normalize(proposer) in Ids(keys)
    case Dao(members, minApprovals) =>
      && 0 < minApprovals
      && Voices(voters) <= Ids(members)
      && minApprovals <= AsU32(|Voices(voters)|)
  }

  // ---- The registry ----

  /** One accepted upgrade; the random transaction id is left out. */
  datatype Record = Record(announcedAt: U64, activation: U64, patch: Patch)

  datatype Registry = Registry(
    governance: GovernanceConfig,
    minDelay: U64,
    tip: U64,
    genesis: Params,
    activations: map<U64, Patch>,
    history: seq<Record>,
    roles: map<string, Role>)

  function SaturatingAdd(a: U64, b: U64): U64 { if a + b <= U64_MAX then a + b else U64_MAX }

  /** The first height a new upgrade may name. */
  function Earliest(r: Registry): U64 { SaturatingAdd(r.tip, r.minDelay) }

  datatype Refusal = EmptyPatch | PermissionDenied | NotAuthorized | TooEarly

  function Refused(r: Registry, patch: Patch, activation: U64, proposer: string, voters: set<string>): Option<Refusal> {
    if !HasChanges(patch) then Some(EmptyPatch)
    else if !HasRole(r.roles, proposer, Operator) then Some(PermissionDenied)
    else if !Authorized(r.governance, proposer, voters) then Some(NotAuthorized)
    else if activation < Earliest(r) then Some(TooEarly)
    else None
  }

  function Schedule(activations: map<U64, Patch>, activation: U64, patch: Patch): map<U64, Patch> {
    activations[activation := if activation in activations then Merge(activations[activation], patch) else patch]
  }

  /** What an accepted upgrade does to the registry. */
  function Accept(r: Registry, patch: Patch, activation: U64): Registry {
    r.(activations := Schedule(r.activations, activation, patch),
       history := r.history + [Record(r.tip, activation, patch)])
  }

  /** `submit_parameter_upgrade`. */
  function Submit(r: Registry, patch: Patch, activation: U64, proposer: string, voters: set<string>): Registry {
    if Refused(r, patch, activation, proposer, voters).None? then Accept(r, patch, activation) else r
  }

  /** Genesis with the merged patches of all heights below `n`, lowest height first. */
  function EffectiveBelow(genesis: Params, activations: map<U64, Patch>, n: nat): Params {
    if n == 0 then genesis
    else
      var p := EffectiveBelow(genesis, activations, n - 1);
      if n - 1 in activations then Apply(p, activations[n - 1]) else p
  }

  /** `effective_parameters_at`. */
  function EffectiveAt(r: Registry, height: U64): Params {
    EffectiveBelow(r.genesis, r.activations, height + 1)
  }

  // ---- The submission log ----

  /** The patches of the log that name `height`, in submission order. */
  function PatchesAt(log: seq<Record>, height: int): seq<Patch> {
    if log == [] then []
    else
      var earlier := PatchesAt(log[..|log| - 1], height);
      var last := log[|log| - 1];
      if last.activation == height then earlier + [last.patch] else earlier
  }

  function ApplyAll(p: Params, patches: seq<Patch>): Params {
    if patches == [] then p
    else Apply(ApplyAll(p, patches[..|patches| - 1]), patches[|patches| - 1])
  }

  function MergeAll(patches: seq<Patch>): Patch {
    if patches == [] then NO_CHANGE
    else Merge(MergeAll(patches[..|patches| - 1]), patches[|patches| - 1])
  }

  /** Genesis with the log replayed one patch at a time: by activation height, then by submission. */
  function ReplayBelow(genesis: Params, log: seq<Record>, n: nat): Params {
    if n == 0 then genesis else ApplyAll(ReplayBelow(genesis, log, n - 1), PatchesAt(log, n - 1))
  }

  /** The map is the log, grouped by height and merged. */
  ghost predicate Indexed(activations: map<U64, Patch>, log: seq<Record>) {
    forall h: U64 ::
      && (h in activations <==> PatchesAt(log, h) != [])
      && (h in activations ==> activations[h] == MergeAll(PatchesAt(log, h)))
  }
}
