/**
 Reading the members of a bundle: the bounded, ordered, duplicate-free view the
 validator works on, and the sort that makes an archive canonical.
 */
module Members {
  import opened Basics
  import opened Archive
  import opened Names

  /** Bounds applied before any untrusted structure is interpreted. */
  datatype Limits = Limits(
    maxArtifactBytes: nat,
    maxMemberCount: nat,
    maxFrameCount: nat,
    maxFrameBytes: nat,
    maxContainedBytes: nat,
    maxManifestBytes: nat,
    maxFrameDimension: nat)

  datatype MemberError =
    | TooManyMembers | InvalidName | NotCanonicalMetadata | DuplicateMember | NotAscending
    | MemberTooLarge | ContainedTooLarge | SizeMismatch | NoMembers

  function MemberBound(name: string, limits: Limits): nat {
    if name == MANIFEST_NAME then limits.maxManifestBytes else limits.maxFrameBytes
  }

  predicate MemberOk(m: TarMember, limits: Limits) {
    && ValidName(m.name)
    && m.meta == CANONICAL_META
    && m.size <= MemberBound(m.name, limits)
    && |m.content| == m.size
  }

  function Contained(ms: seq<TarMember>): nat {
    if ms == [] then 0 else Contained(ms[..|ms| - 1]) + ms[|ms| - 1].size
  }

  predicate Distinct(ms: seq<TarMember>) {
    forall i, j :: 0 <= i < j < |ms| ==> ms[i].name != ms[j].name
  }

  predicate Ascending(ms: seq<TarMember>) {
    forall i :: 0 < i < |ms| ==> Less(ms[i - 1].name, ms[i].name)
  }

  predicate PrefixOk(ms: seq<TarMember>, limits: Limits) {
    && |ms| <= limits.maxMemberCount
    && (forall i :: 0 <= i < |ms| ==> MemberOk(ms[i], limits))
    && Distinct(ms)
    && Ascending(ms)
    && Contained(ms) <= limits.maxContainedBytes
  }

  /** What a list of members must satisfy to be read. */
  predicate MembersOk(ms: seq<TarMember>, limits: Limits) {
    ms != [] && PrefixOk(ms, limits)
  }

  function NamesOf(ms: seq<TarMember>): (names: seq<string>)
    ensures |names| == |ms| && forall i :: 0 <= i < |ms| ==> names[i] == ms[i].name
  {
    seq(|ms|, i requires 0 <= i < |ms| => ms[i].name)
  }

  function Payloads(ms: seq<TarMember>): (p: map<string, seq<Byte>>)
    ensures forall name :: name in p <==> exists i :: 0 <= i < |ms| && ms[i].name == name
  {
    if ms == [] then map[]
    else
      var last := |ms| - 1;
      var p := Payloads(ms[..last])[ms[last].name := ms[last].content];
      assert forall i :: 0 <= i < last ==> ms[..last][i].name == ms[i].name;
      p
  }

  lemma {:induction false} PayloadAt(ms: seq<TarMember>, i: nat)
    requires Distinct(ms) && i < |ms|
    ensures ms[i].name in Payloads(ms) && Payloads(ms)[ms[i].name] == ms[i].content
  {
    var last := |ms| - 1;
    if i < last {
      PayloadAt(ms[..last], i);
    }
  }

  lemma {:induction false} ContainedGrows(ms: seq<TarMember>, k: nat)
    requires k <= |ms|
    ensures Contained(ms[..k]) <= Contained(ms)
  {
    if k < |ms| {
      var front := ms[..|ms| - 1];
      ContainedGrows(front, k);
      assert front[..k] == ms[..k];
    } else {
      assert ms[..k] == ms;
    }
  }

  lemma {:induction false} PrefixNeeded(ms: seq<TarMember>, k: nat, limits: Limits)
    requires k <= |ms| && PrefixOk(ms, limits)
    ensures PrefixOk(ms[..k], limits)
  {
    ContainedGrows(ms, k);
  }

  /** The checks the loop makes on one member, given those it has accepted before. */
  predicate Extends(ms: seq<TarMember>, m: TarMember, limits: Limits) {
    && |ms| < limits.maxMemberCount
    && MemberOk(m, limits)
    && m.name !in Payloads(ms)
    && (ms != [] ==> Less(ms[|ms| - 1].name, m.name))
    && Contained(ms) + m.size <= limits.maxContainedBytes
  }

  lemma {:induction false} PrefixStep(ms: seq<TarMember>, m: TarMember, limits: Limits)
    requires PrefixOk(ms, limits)
    ensures PrefixOk(ms + [m], limits) <==> Extends(ms, m, limits)
    ensures NamesOf(ms + [m]) == NamesOf(ms) + [m.name]
    ensures Payloads(ms + [m]) == Payloads(ms)[m.name := m.content]
    ensures Contained(ms + [m]) == Contained(ms) + m.size
  {
    var next := ms + [m];
    assert next[..|ms|] == ms;
    assert forall i :: 0 <= i < |ms| ==> next[i] == ms[i];
    if PrefixOk(next, limits) {
      assert MemberOk(next[|ms|], limits);
      if ms != [] {
        assert Less(next[|ms| - 1].name, next[|ms|].name);
      }
    }
  }

  /** What each refusal reports about member `k`, given those before it. */
  predicate FaultAt(ms: seq<TarMember>, k: nat, limits: Limits, e: MemberError)
    requires k < |ms|
  {
    var m := ms[k];
    match e
    case TooManyMembers => k >= limits.maxMemberCount
    case InvalidName => !ValidName(m.name)
    case NotCanonicalMetadata => m.meta != CANONICAL_META
    case DuplicateMember => m.name in Payloads(ms[..k])
    case NotAscending => k > 0 && !Less(ms[k - 1].name, m.name)
    case MemberTooLarge => m.size > MemberBound(m.name, limits)
    case ContainedTooLarge => Contained(ms[..k]) + m.size > limits.maxContainedBytes
    case SizeMismatch => m.size != |m.content|
    case NoMembers => false
  }

  /** A refusal reports the first member that is wrong, or that there is none. */
  predicate MembersRefusal(ms: seq<TarMember>, limits: Limits, e: MemberError) {
    (e.NoMembers? && |ms| == 0)
    || exists k :: 0 <= k < |ms| && PrefixOk(ms[..k], limits) && FaultAt(ms, k, limits, e)
  }

  /** The member loop, with its running order, payloads and byte total. */
  method ReadMembers(ms: seq<TarMember>, limits: Limits)
    returns (r: Result<(seq<string>, map<string, seq<Byte>>), MemberError>)
    ensures r.Ok? <==> MembersOk(ms, limits)
    ensures r.Ok? ==> r.value == (NamesOf(ms), Payloads(ms))
    ensures r.Err? ==> MembersRefusal(ms, limits, r.error)
  {
    var order: seq<string>, payloads: map<string, seq<Byte>>, contained := [], map[], 0;
    var k := 0;
    while k < |ms|
      invariant 0 <= k <= |ms|
      invariant PrefixOk(ms[..k], limits)
      invariant contained == Contained(ms[..k])
      invariant order == NamesOf(ms[..k]) && payloads == Payloads(ms[..k])
    {
      var m := ms[k];
      var error := MemberFault(order, payloads, contained, m, limits);
      MemberStep(ms, k, limits);
      if error.Some? {
        return Err(error.value);
      }
      contained := contained + m.size;
      order := order + [m.name];
      payloads := payloads[m.name := m.content];
      k := k + 1;
    }
    assert ms[..k] == ms;
    if order == [] {
      return Err(NoMembers);
    }
    return Ok((order, payloads));
  }

  /** The first check a member fails, in the order in which they are made. */
  function MemberFault(
    order: seq<string>, payloads: map<string, seq<Byte>>, contained: nat, m: TarMember, limits: Limits):
    Option<MemberError>
  {
    if |order| >= limits.maxMemberCount then Some(TooManyMembers)
    else if !ValidName(m.name) then Some(InvalidName)
    else if m.meta != CANONICAL_META then Some(NotCanonicalMetadata)
    else if m.name in payloads then Some(DuplicateMember)
    else if order != [] && !Less(order[|order| - 1], m.name) then Some(NotAscending)
    else if m.size > MemberBound(m.name, limits) then Some(MemberTooLarge)
    else if contained + m.size > limits.maxContainedBytes then Some(ContainedTooLarge)
    else if |m.content| != m.size then Some(SizeMismatch)
    else None
  }

  /** The check the loop makes on member `k`, given that it has accepted those before it. */
  function FaultOf(ms: seq<TarMember>, k: nat, limits: Limits): Option<MemberError>
    requires k < |ms|
  {
    MemberFault(NamesOf(ms[..k]), Payloads(ms[..k]), Contained(ms[..k]), ms[k], limits)
  }

  lemma {:induction false} FaultIsThere(ms: seq<TarMember>, k: nat, limits: Limits)
    requires k < |ms| && PrefixOk(ms[..k], limits) && FaultOf(ms, k, limits).Some?
    ensures MembersRefusal(ms, limits, FaultOf(ms, k, limits).value)
  {
    if k > 0 {
      assert NamesOf(ms[..k])[k - 1] == ms[k - 1].name;
    }
    assert FaultAt(ms, k, limits, FaultOf(ms, k, limits).value);
  }

  lemma {:induction false} FaultIsExact(ms: seq<TarMember>, k: nat, limits: Limits)
    requires k < |ms|
    ensures FaultOf(ms, k, limits).None? <==> Extends(ms[..k], ms[k], limits)
  {
  }

  /** A member without a fault extends the accepted ones; one with a fault refuses the archive. */
  lemma {:induction false} MemberStep(ms: seq<TarMember>, k: nat, limits: Limits)
    requires k < |ms| && PrefixOk(ms[..k], limits)
    ensures FaultOf(ms, k, limits).None? ==> PrefixOk(ms[..k + 1], limits)
    ensures FaultOf(ms, k, limits).Some? ==> !PrefixOk(ms, limits) && MembersRefusal(ms, limits, FaultOf(ms, k, limits).value)
    ensures NamesOf(ms[..k + 1]) == NamesOf(ms[..k]) + [ms[k].name]
    ensures Payloads(ms[..k + 1]) == Payloads(ms[..k])[ms[k].name := ms[k].content]
    ensures Contained(ms[..k + 1]) == Contained(ms[..k]) + ms[k].size
  {
    assert ms[..k + 1] == ms[..k] + [ms[k]];
    FaultIsExact(ms, k, limits);
    PrefixStep(ms[..k], ms[k], limits);
    if FaultOf(ms, k, limits).Some? {
      FaultIsThere(ms, k, limits);
      if PrefixOk(ms, limits) {
        PrefixNeeded(ms, k + 1, limits);
      }
    }
  }

  // ---------- sorting ----------

  function Insert(m: Member, ms: seq<Member>): seq<Member> {
    if ms == [] || !Less(ms[0].name, m.name) then [m] + ms else [ms[0]] + Insert(m, ms[1..])
  }

  /** A stable sort by name. */
  function Sorted(ms: seq<Member>): seq<Member> {
    if ms == [] then [] else Insert(ms[0], Sorted(ms[1..]))
  }

  predicate InOrder(ms: seq<Member>) {
    forall i :: 0 < i < |ms| ==> !Less(ms[i].name, ms[i - 1].name)
  }

  lemma {:induction false} InsertElements(m: Member, ms: seq<Member>)
    ensures multiset(Insert(m, ms)) == multiset(ms) + multiset{m}
  {
    if ms != [] && Less(ms[0].name, m.name) {
      InsertElements(m, ms[1..]);
      assert ms == [ms[0]] + ms[1..];
    }
  }

  lemma {:induction false} InOrderCons(m: Member, ms: seq<Member>)
    requires InOrder(ms) && (ms != [] ==> !Less(ms[0].name, m.name))
    ensures InOrder([m] + ms)
  {
  }

  lemma {:induction false} InOrderTail(ms: seq<Member>)
    requires InOrder(ms) && ms != []
    ensures InOrder(ms[1..])
  {
    assert forall i :: 0 < i < |ms[1..]| ==> ms[1..][i] == ms[i + 1] && ms[1..][i - 1] == ms[i];
  }

  lemma {:induction false} InsertKeepsOrder(m: Member, ms: seq<Member>)
    requires InOrder(ms)
    ensures InOrder(Insert(m, ms))
    ensures Insert(m, ms)[0] == m || (ms != [] && Insert(m, ms)[0] == ms[0])
  {
    if ms == [] || !Less(ms[0].name, m.name) {
      InOrderCons(m, ms);
    } else {
      InOrderTail(ms);
      InsertKeepsOrder(m, ms[1..]);
      var rest := Insert(m, ms[1..]);
      assert !Less(m.name, ms[0].name) by {
        if Less(m.name, ms[0].name) {
          LessIsTransitive(ms[0].name, m.name, ms[0].name);
          LessIsStrict(ms[0].name);
        }
      }
      assert |ms| > 1 ==> ms[1..][0] == ms[1];
      InOrderCons(ms[0], rest);
    }
  }

  lemma {:induction false} SortedIsSorted(ms: seq<Member>)
    ensures InOrder(Sorted(ms))
    ensures multiset(Sorted(ms)) == multiset(ms)
  {
    if ms != [] {
      SortedIsSorted(ms[1..]);
      InsertKeepsOrder(ms[0], Sorted(ms[1..]));
      InsertElements(ms[0], Sorted(ms[1..]));
      assert ms == [ms[0]] + ms[1..];
    }
  }

  /** Sorting a list that already ascends changes nothing. */
  lemma {:induction false} SortedFixpoint(ms: seq<Member>)
    requires InOrder(ms)
    ensures Sorted(ms) == ms
  {
    if ms != [] {
      InOrderTail(ms);
      SortedFixpoint(ms[1..]);
      assert ms == [ms[0]] + ms[1..];
    }
  }

  function AsMembers(ms: seq<TarMember>): (out: seq<Member>)
    ensures |out| == |ms| && forall i :: 0 <= i < |ms| ==> out[i] == Member(ms[i].name, ms[i].content)
  {
    seq(|ms|, i requires 0 <= i < |ms| => Member(ms[i].name, ms[i].content))
  }

  lemma {:induction false} AscendingInOrder(ms: seq<TarMember>)
    requires Ascending(ms)
    ensures InOrder(AsMembers(ms))
  {
    forall i | 0 < i < |ms|
      ensures !Less(ms[i].name, ms[i - 1].name)
    {
      if Less(ms[i].name, ms[i - 1].name) {
        LessIsTransitive(ms[i].name, ms[i - 1].name, ms[i].name);
        LessIsStrict(ms[i].name);
      }
    }
  }
}
