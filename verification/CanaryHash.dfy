/** The 32-bit FNV-1a bucket that decides which callers a canary release gets. */
module CanaryHash {
  import opened Options
  import opened Text

  type byte = x: int | 0 <= x < 256
  type uint32 = x: int | 0 <= x < 0x1_0000_0000

  const OFFSET_BASIS: uint32 := 2166136261
  const PRIME: int := 16777619
  /** The inverse of PRIME modulo 2^32. */
  const PRIME_INVERSE: int := 899433627

  function Wrap(x: int): uint32 {
    x % 0x1_0000_0000
  }

  /** Exclusive or of the low `n` bits. */
  function XorBits(a: nat, b: nat, n: nat): nat {
    if n == 0 then 0
    else (if a % 2 == b % 2 then 0 else 1) + 2 * XorBits(a / 2, b / 2, n - 1)
  }

  function Pow2(n: nat): nat {
    if n == 0 then 1 else 2 * Pow2(n - 1)
  }

  lemma {:induction false} XorBitsTwice(a: nat, b: nat, n: nat)
    requires a < Pow2(n)
    ensures XorBits(a, b, n) < Pow2(n)
    ensures XorBits(XorBits(a, b, n), b, n) == a
  {
    if n > 0 {
      XorBitsTwice(a / 2, b / 2, n - 1);
      assert XorBits(a, b, n) / 2 == XorBits(a / 2, b / 2, n - 1);
    }
  }

  lemma EightBits()
    ensures Pow2(8) == 256
  {
    assert Pow2(4) == 16;
    assert Pow2(6) == 64;
  }

  function XorByte(low: byte, b: byte): byte {
    EightBits();
    XorBitsTwice(low, b, 8);
    XorBits(low, b, 8)
  }

  /** Replace the low byte. */
  function WithLow(sum: uint32, low: byte): (r: uint32)
    ensures r % 256 == low && r / 256 == sum / 256
  {
    sum / 256 * 256 + low
  }

  /** `sum ^ uint32(b)`: the byte is widened with zeros, so only the low byte changes. */
  function Xor(sum: uint32, b: byte): uint32 {
    WithLow(sum, XorByte(sum % 256, b))
  }

  /** `sum ^= uint32(b); sum *= 16777619` on wrapping 32-bit integers. */
  function Step(sum: uint32, b: byte): uint32 {
    Wrap(Xor(sum, b) * PRIME)
  }

  function Unstep(sum: uint32, b: byte): uint32 {
    Xor(Wrap(sum * PRIME_INVERSE), b)
  }

  function Fold(sum: uint32, bytes: seq<byte>): uint32
    decreases |bytes|
  {
    if bytes == [] then sum else Fold(Step(sum, bytes[0]), bytes[1..])
  }

  function Bucket(bytes: seq<byte>): int {
    Fold(OFFSET_BASIS, bytes) % 100
  }

  method StablePercent(value: seq<byte>) returns (percent: int)
    ensures percent == Bucket(value) && 0 <= percent < 100
  {
    var sum: uint32 := OFFSET_BASIS;
    for i := 0 to |value|
      invariant Fold(sum, value[i..]) == Fold(OFFSET_BASIS, value)
    {
      assert value[i..][1..] == value[i + 1..];
      sum := Xor(sum, value[i]);
      sum := Wrap(sum * PRIME);
    }
    return sum % 100;
  }

  lemma XorTwice(sum: uint32, b: byte)
    ensures Xor(Xor(sum, b), b) == sum
  {
    EightBits();
    XorBitsTwice(sum % 256, b, 8);
  }

  lemma WrapsTo(x: uint32, r: int, m: int)
    requires r == x + 0x1_0000_0000 * m
    ensures Wrap(r) == x
  {
  }

  /** PRIME and PRIME_INVERSE are inverse modulo 2^32, so multiplying by one undoes the other. */
  lemma MultiplyBack(x: uint32, p: int, i: int)
    requires (p, i) in {(PRIME, PRIME_INVERSE), (PRIME_INVERSE, PRIME)}
    ensures Wrap(Wrap(x * p) * i) == x
  {
    var q := x * p / 0x1_0000_0000;
    var r := Wrap(x * p);
    assert p * i == 3513497 * 0x1_0000_0000 + 1;
    assert r * i == x * p * i - 0x1_0000_0000 * q * i;
    WrapsTo(x, r * i, 3513497 * x - q * i);
  }

  /** One step can be undone on both sides, so it is a bijection of the 32-bit states. */
  lemma StepIsBijective(sum: uint32, b: byte)
    ensures Unstep(Step(sum, b), b) == sum
    ensures Step(Unstep(sum, b), b) == sum
  {
    MultiplyBack(Xor(sum, b), PRIME, PRIME_INVERSE);
    XorTwice(sum, b);
    XorTwice(Wrap(sum * PRIME_INVERSE), b);
    MultiplyBack(sum, PRIME_INVERSE, PRIME);
  }

  /** Two keys are merged by a common suffix exactly when they were merged before it. */
  lemma {:induction false} SuffixKeepsDifference(a: uint32, b: uint32, suffix: seq<byte>)
    ensures Fold(a, suffix) == Fold(b, suffix) <==> a == b
    decreases |suffix|
  {
    if suffix != [] {
      StepIsBijective(a, suffix[0]);
      StepIsBijective(b, suffix[0]);
      SuffixKeepsDifference(Step(a, suffix[0]), Step(b, suffix[0]), suffix[1..]);
    }
  }

  lemma {:induction false} FoldAppend(sum: uint32, a: seq<byte>, b: seq<byte>)
    ensures Fold(sum, a + b) == Fold(Fold(sum, a), b)
    decreases |a|
  {
    if a == [] {
      assert a + b == b;
    } else {
      assert (a + b)[1..] == a[1..] + b;
      FoldAppend(Step(sum, a[0]), a[1..], b);
    }
  }

  /** On whole keys: appending the same suffix to two keys never makes their states equal. */
  lemma KeysStayApart(a: seq<byte>, b: seq<byte>, suffix: seq<byte>)
    ensures Fold(OFFSET_BASIS, a + suffix) == Fold(OFFSET_BASIS, b + suffix)
            <==> Fold(OFFSET_BASIS, a) == Fold(OFFSET_BASIS, b)
  {
    FoldAppend(OFFSET_BASIS, a, suffix);
    FoldAppend(OFFSET_BASIS, b, suffix);
    SuffixKeepsDifference(Fold(OFFSET_BASIS, a), Fold(OFFSET_BASIS, b), suffix);
  }

  lemma XorOfA(low: byte, a: byte)
    requires low == 0xC5 && a == 0x61
    ensures XorByte(low, a) == 0xA4
  {
    assert XorBits(0xC, 0x6, 4) == 0xA;
    assert XorBits(0x31, 0x18, 6) == 0x29;
  }

  lemma StepOf(sum: uint32, b: byte, low: byte)
    requires XorByte(sum % 256, b) == low
    ensures Step(sum, b) == Wrap((sum - sum % 256 + low) * PRIME)
  {
  }

  lemma FoldOne(sum: uint32, b: byte)
    ensures Fold(sum, [b]) == Step(sum, b)
  {
    assert [b][1..] == [];
  }

  lemma WrappedProduct(x: int)
    requires x == 0x811C9DA4
    ensures Wrap(x * PRIME) == 0xE40C292C
  {
  }

  lemma StepOfA(sum: uint32, a: byte)
    requires sum == 0x811C9DC5 && a == 0x61
    ensures Step(sum, a) == 0xE40C292C
  {
    assert sum % 256 == 0xC5;
    XorOfA(sum % 256, a);
    StepOf(sum, a, 0xA4);
    WrappedProduct(sum - sum % 256 + 0xA4);
  }

  /** The hash is FNV-1a: the published values for the empty text and for the text "a". */
  lemma TestVectors(a: byte)
    requires a == 'a' as int
    ensures Fold(OFFSET_BASIS, []) == 0x811C9DC5 && Fold(OFFSET_BASIS, [a]) == 0xE40C292C
  {
    StepOfA(OFFSET_BASIS, a);
    FoldOne(OFFSET_BASIS, a);
  }

  // ----- the bytes of a key -------------------------------------------------

  function RuneBytes(c: char): (bytes: seq<byte>)
    ensures |bytes| == Width(c)
  {
    var r := c as int;
    if r < 0x80 then [r]
    else if r < 0x800 then [0xC0 + r / 0x40, Continuation(r)]
    else if r < 0x10000 then [0xE0 + r / 0x1000, Continuation(r / 0x40), Continuation(r)]
    else [0xF0 + r / 0x40000, Continuation(r / 0x1000), Continuation(r / 0x40), Continuation(r)]
  }

  function Continuation(r: nat): byte {
    0x80 + r % 0x40
  }

  function Bytes(s: string): seq<byte> {
    if s == "" then [] else RuneBytes(s[0]) + Bytes(s[1..])
  }

  /** The code point that a UTF-8 sequence of these bytes stands for (section 3 of RFC 3629). */
  function Decoded(b: seq<int>): int
    requires 1 <= |b| <= 4
  {
    if |b| == 1 then b[0]
    else if |b| == 2 then (b[0] - 0xC0) * 0x40 + (b[1] - 0x80)
    else if |b| == 3 then (b[0] - 0xE0) * 0x1000 + (b[1] - 0x80) * 0x40 + (b[2] - 0x80)
    else (b[0] - 0xF0) * 0x40000 + (b[1] - 0x80) * 0x1000 + (b[2] - 0x80) * 0x40 + (b[3] - 0x80)
  }

  lemma Digits(r: nat)
    ensures r == r / 0x40 * 0x40 + r % 0x40
    ensures r / 0x40 == r / 0x1000 * 0x40 + r / 0x40 % 0x40
    ensures r / 0x1000 == r / 0x40000 * 0x40 + r / 0x1000 % 0x40
  {
  }

  /** Every character is written in the fewest bytes that hold it, followed by continuation bytes, and can be
      read back. */
  lemma RunesAreUtf8(c: char)
    ensures var b := RuneBytes(c);
            && |b| == (if c as int < 0x80 then 1 else if c as int < 0x800 then 2
                       else if c as int < 0x10000 then 3 else 4)
            && Decoded(b) == c as int
            && forall i :: 1 <= i < |b| ==> 0x80 <= b[i] < 0xC0
  {
    var r, b := c as int, RuneBytes(c);
    Digits(r);
    if r < 0x80 {
    } else if r < 0x800 {
      assert b == [0xC0 + r / 0x40, 0x80 + r % 0x40];
    } else if r < 0x10000 {
      assert b == [0xE0 + r / 0x1000, 0x80 + r / 0x40 % 0x40, 0x80 + r % 0x40];
    } else {
      assert b == [0xF0 + r / 0x40000, 0x80 + r / 0x1000 % 0x40, 0x80 + r / 0x40 % 0x40, 0x80 + r % 0x40];
    }
  }

  /** Byte offsets count the bytes written for the runes before. */
  lemma {:induction false} OffsetCountsBytes(s: string)
    ensures |Bytes(s)| == Offset(s, |s|)
  {
    if s != "" {
      OffsetCountsBytes(s[1..]);
      OffsetOfTail(s, |s|);
    }
  }

  lemma {:induction false} OffsetOfTail(s: string, n: nat)
    requires 0 < n <= |s|
    ensures Offset(s, n) == Width(s[0]) + Offset(s[1..], n - 1)
  {
    if n > 1 {
      OffsetOfTail(s, n - 1);
    } else {
      assert Offset(s, 0) == 0;
    }
  }

  // ----- who gets the canary ------------------------------------------------

  /** The parts of a request that can name its caller. */
  datatype Conversation = Conversation(threadID: string, conversationID: string, currentThreadID: Option<string>)

  datatype Request = Request(userID: string, callerID: string, conversation: Option<Conversation>,
                             externalTask: Option<(string, string)>, requestID: string, traceID: string)

  function AssignmentKey(r: Request): string {
    if r.userID != "" then r.userID
    else if r.callerID != "" then r.callerID
    else if r.conversation.Some? && ConversationKey(r.conversation.value) != ""
      then ConversationKey(r.conversation.value)
    else if r.externalTask.Some? then r.externalTask.value.0 + ":" + r.externalTask.value.1
    else if r.requestID != "" then r.requestID
    else r.traceID
  }

  function ConversationKey(c: Conversation): string {
    if c.threadID != "" then c.threadID
    else if c.conversationID != "" then c.conversationID
    else if c.currentThreadID.Some? then c.currentThreadID.value
    else ""
  }

  function RoutingKey(tenant: string, agent: string, packageID: string, r: Request): string {
    tenant + "|" + agent + "|" + packageID + "|" + AssignmentKey(r)
  }

  function ShouldRoute(tenant: string, agent: string, packageID: string, percent: int, r: Request): bool {
    if percent <= 0 then false
    else if percent >= 100 then true
    else Bucket(Bytes(RoutingKey(tenant, agent, packageID, r))) < percent
  }

  /** Raising the percentage only adds callers; 0 routes none and 100 all. */
  lemma RoutingIsMonotone(tenant: string, agent: string, packageID: string, p: int, q: int, r: Request)
    requires p <= q
    ensures ShouldRoute(tenant, agent, packageID, p, r) ==> ShouldRoute(tenant, agent, packageID, q, r)
    ensures p <= 0 ==> !ShouldRoute(tenant, agent, packageID, p, r)
    ensures p >= 100 ==> ShouldRoute(tenant, agent, packageID, p, r)
  {
    assert 0 <= Bucket(Bytes(RoutingKey(tenant, agent, packageID, r))) < 100;
  }

  /** Two requests of one user, or of one caller without user, are always routed alike, whatever
      their conversations, tasks and traces. */
  lemma RoutingIsSticky(tenant: string, agent: string, packageID: string, p: int, r: Request, r': Request)
    requires (r.userID != "" && r'.userID == r.userID)
             || (r.userID == r'.userID == "" && r.callerID != "" && r'.callerID == r.callerID)
    ensures ShouldRoute(tenant, agent, packageID, p, r) == ShouldRoute(tenant, agent, packageID, p, r')
  {
  }

  /** The first name that is set. */
  function FirstSet(names: seq<string>): string {
    if names == [] then "" else if names[0] != "" then names[0] else FirstSet(names[1..])
  }

  function NamesOf(c: Conversation): seq<string> {
    [c.threadID, c.conversationID, c.currentThreadID.GetOr("")]
  }

  /** A caller is known by the first of these that is set: user, caller, the three names of the conversation;
      then by the external task if there is one; then by the request, and last by the trace. */
  lemma AssignedInOrder(r: Request)
    ensures var names := [r.userID, r.callerID] + if r.conversation.Some? then NamesOf(r.conversation.value) else [];
            var task := if r.externalTask.Some? then [r.externalTask.value.0 + ":" + r.externalTask.value.1] else [];
            AssignmentKey(r) == FirstSet(names + task + [r.requestID, r.traceID])
  {
    var names := [r.userID, r.callerID] + if r.conversation.Some? then NamesOf(r.conversation.value) else [];
    var task := if r.externalTask.Some? then [r.externalTask.value.0 + ":" + r.externalTask.value.1] else [];
    FirstSetOfTwo(names, task + [r.requestID, r.traceID]);
    FirstSetOfTwo(task, [r.requestID, r.traceID]);
    assert names + task + [r.requestID, r.traceID] == names + (task + [r.requestID, r.traceID]);
    FirstOfTwo(r.requestID, r.traceID);
    FirstSetOfTwo([r.userID, r.callerID], if r.conversation.Some? then NamesOf(r.conversation.value) else []);
    FirstOfTwo(r.userID, r.callerID);
    if r.conversation.Some? {
      ConversationNames(r.conversation.value);
    }
  }

  lemma ConversationNames(c: Conversation)
    ensures FirstSet(NamesOf(c)) == ConversationKey(c)
  {
    var last := c.currentThreadID.GetOr("");
    FirstOfTwo(c.conversationID, last);
    assert NamesOf(c)[0] == c.threadID && NamesOf(c)[1..] == [c.conversationID, last];
    assert FirstSet(NamesOf(c)) == if c.threadID != "" then c.threadID else FirstSet(NamesOf(c)[1..]);
  }

  lemma FirstOfTwo(a: string, b: string)
    ensures FirstSet([a, b]) == if a != "" then a else b
  {
    assert [b][1..] == [] && FirstSet([b]) == b;
    assert [a, b][1..] == [b];
  }

  lemma {:induction false} FirstSetOfTwo(a: seq<string>, b: seq<string>)
    ensures FirstSet(a + b) == if FirstSet(a) != "" then FirstSet(a) else FirstSet(b)
  {
    if a == [] {
      assert a + b == b;
    } else {
      assert (a + b)[1..] == a[1..] + b;
      FirstSetOfTwo(a[1..], b);
    }
  }
}
