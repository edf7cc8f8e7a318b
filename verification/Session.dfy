/** Session rotation: the message the owner signs, the precompile layout that carries it,
    the forward-only expiry, and the rewritten member list. */
module Session {
  import opened Words
  import opened Instructions
  import opened Positions

  const SESSION_TTL: nat := 7 * 24 * 3600

  // ------------------------------------------------------------------- text

  function Ascii(s: string): Bytes { seq(|s|, i requires 0 <= i < |s| => s[i] as int % 256) }

  const SPACE: u8 := 32
  const MINUS: u8 := 45

  function DecimalDigits(n: nat): Bytes {
    if n < 10 then [48 + n] else DecimalDigits(n / 10) + [48 + n % 10]
  }

  /** An i64 as `format!` prints it. */
  function Decimal(n: int): Bytes { if n < 0 then [MINUS] + DecimalDigits(-n) else DecimalDigits(n) }

  /** The base-58 alphabet: digits and letters without 0, O, I and l. */
  function Base58Digit(d: nat): u8
    requires d < 58
  {
    if d < 9 then 49 + d
    else if d < 17 then 65 + (d - 9)
    else if d < 22 then 74 + (d - 17)
    else if d < 33 then 80 + (d - 22)
    else if d < 44 then 97 + (d - 33)
    else 109 + (d - 44)
  }

  function Base58Value(c: u8): nat {
    if 49 <= c < 58 then c - 49
    else if 65 <= c < 73 then c - 65 + 9
    else if 74 <= c < 79 then c - 74 + 17
    else if 80 <= c < 91 then c - 80 + 22
    else if 97 <= c < 108 then c - 97 + 33
    else if 109 <= c < 123 then c - 109 + 44
    else 0
  }

  /** The base-58 digits of a number, most significant first; none for zero. */
  function Base58Digits(n: nat): Bytes {
    if n == 0 then [] else Base58Digits(n / 58) + [Base58Digit(n % 58)]
  }

  function BigEndian(s: Bytes): nat {
    if |s| == 0 then 0 else 256 * BigEndian(s[..|s| - 1]) + s[|s| - 1]
  }

  function LeadingZeros(s: Bytes): nat {
    if |s| == 0 || s[0] != 0 then 0 else 1 + LeadingZeros(s[1..])
  }

  /** A key as text: one `1` per leading zero byte, then the number in base 58. */
  function KeyText(key: Pubkey): Bytes {
    seq(LeadingZeros(key), _ => 49) + Base58Digits(BigEndian(key))
  }

  function Base58Number(s: Bytes): nat {
    if |s| == 0 then 0 else 58 * Base58Number(s[..|s| - 1]) + Base58Value(s[|s| - 1])
  }

  lemma {:induction false} Base58RoundTrip(n: nat)
    ensures Base58Number(Base58Digits(n)) == n
    ensures SPACE !in Base58Digits(n)
  {
    if n > 0 {
      Base58RoundTrip(n / 58);
      var s := Base58Digits(n);
      assert s[..|s| - 1] == Base58Digits(n / 58);
    }
  }

  lemma {:induction false} LeadingOnesAreZero(ones: Bytes, s: Bytes)
    requires forall i :: 0 <= i < |ones| ==> ones[i] == 49
    ensures Base58Number(ones + s) == Base58Number(s)
    decreases |ones| + |s|
  {
    var t := ones + s;
    if |s| > 0 {
      assert t[..|t| - 1] == ones + s[..|s| - 1];
      LeadingOnesAreZero(ones, s[..|s| - 1]);
    } else if |ones| > 0 {
      assert t[..|t| - 1] == ones[..|ones| - 1] + s;
      LeadingOnesAreZero(ones[..|ones| - 1], s);
    }
  }

  lemma {:induction false} BigEndianIsUnique(a: Bytes, b: Bytes)
    requires |a| == |b| && BigEndian(a) == BigEndian(b)
    ensures a == b
  {
    if |a| > 0 {
      BigEndianIsUnique(a[..|a| - 1], b[..|b| - 1]);
      assert a == a[..|a| - 1] + [a[|a| - 1]];
      assert b == b[..|b| - 1] + [b[|b| - 1]];
    }
  }

  lemma KeyTextIsUnique(a: Pubkey, b: Pubkey)
    requires KeyText(a) == KeyText(b)
    ensures a == b
  {
    Base58RoundTrip(BigEndian(a));
    Base58RoundTrip(BigEndian(b));
    LeadingOnesAreZero(seq(LeadingZeros(a), _ => 49), Base58Digits(BigEndian(a)));
    LeadingOnesAreZero(seq(LeadingZeros(b), _ => 49), Base58Digits(BigEndian(b)));
    BigEndianIsUnique(a, b);
  }

  lemma KeyTextHasNoSpace(a: Pubkey)
    ensures SPACE !in KeyText(a)
  {
    Base58RoundTrip(BigEndian(a));
  }

  function DecimalNumber(s: Bytes): int {
    if |s| == 0 then 0 else 10 * DecimalNumber(s[..|s| - 1]) + s[|s| - 1] as int - 48
  }

  lemma {:induction false} DecimalRoundTrip(n: nat)
    ensures DecimalNumber(DecimalDigits(n)) == n
    ensures |DecimalDigits(n)| > 0 && DecimalDigits(n)[0] != MINUS
  {
    var s := DecimalDigits(n);
    if n < 10 {
      assert s[..0] == [];
    } else {
      DecimalRoundTrip(n / 10);
      assert s[..|s| - 1] == DecimalDigits(n / 10);
    }
  }

  lemma DecimalIsUnique(m: int, n: int)
    requires Decimal(m) == Decimal(n)
    ensures m == n
  {
    DecimalRoundTrip(if m < 0 then -m else m);
    DecimalRoundTrip(if n < 0 then -n else n);
    if m < 0 && n < 0 {
      assert Decimal(m)[1..] == DecimalDigits(-m) && Decimal(n)[1..] == DecimalDigits(-n);
    }
  }

  // ---------------------------------------------------------------- message

  const HEAD := "Agama on MagicBlock\nAuthorize session key "
  const MIDDLE := "for position "
  const TAIL := "until "

  /** `session_message`: the text the owner's wallet signs. */
  function SessionMessage(position: Pubkey, sessionKey: Pubkey, expiry: i64): Bytes {
    Ascii(HEAD) + (KeyText(sessionKey) + [SPACE]
      + (Ascii(MIDDLE) + (KeyText(position) + [SPACE] + (Ascii(TAIL) + Decimal(expiry)))))
  }

  lemma SameHead(head: Bytes, a: Bytes, b: Bytes)
    requires head + a == head + b
    ensures a == b
  {
    assert a == (head + a)[|head|..];
    assert b == (head + b)[|head|..];
  }

  lemma WordEnds(word: Bytes, rest: Bytes)
    requires SPACE !in word
    ensures var s := word + [SPACE] + rest;
      s[|word|] == SPACE && (forall i :: 0 <= i < |word| ==> s[i] != SPACE)
      && s[..|word|] == word && s[|word| + 1..] == rest
  {
  }

  /** Text up to the first space is determined by the whole. */
  lemma SameWord(a: Bytes, b: Bytes, x: Bytes, y: Bytes)
    requires SPACE !in a && SPACE !in b
    requires a + [SPACE] + x == b + [SPACE] + y
    ensures a == b && x == y
  {
    WordEnds(a, x);
    WordEnds(b, y);
    assert |a| == |b|;
  }

  /** The message names position, key and expiry so that no two rotations read alike. */
  lemma MessageIsInjective(p: Pubkey, k: Pubkey, e: i64, p': Pubkey, k': Pubkey, e': i64)
    requires SessionMessage(p, k, e) == SessionMessage(p', k', e')
    ensures p == p' && k == k' && e == e'
  {
    hide KeyText, Decimal, Ascii;
    var tail, tail' := Ascii(TAIL) + Decimal(e), Ascii(TAIL) + Decimal(e');
    var rest, rest' := KeyText(p) + [SPACE] + tail, KeyText(p') + [SPACE] + tail';
    KeyTextHasNoSpace(k);
    KeyTextHasNoSpace(k');
    KeyTextHasNoSpace(p);
    KeyTextHasNoSpace(p');
    SameHead(Ascii(HEAD), KeyText(k) + [SPACE] + (Ascii(MIDDLE) + rest),
             KeyText(k') + [SPACE] + (Ascii(MIDDLE) + rest'));
    SameWord(KeyText(k), KeyText(k'), Ascii(MIDDLE) + rest, Ascii(MIDDLE) + rest');
    SameHead(Ascii(MIDDLE), rest, rest');
    SameWord(KeyText(p), KeyText(p'), tail, tail');
    SameHead(Ascii(TAIL), Decimal(e), Decimal(e'));
    KeyTextIsUnique(k, k');
    KeyTextIsUnique(p, p');
    DecimalIsUnique(e, e');
  }

  // ------------------------------------------------------------- precompile

  function U16At(d: Bytes, i: nat): nat
    requires i + 2 <= |d|
  {
    LeValue(d[i..i + 2])
  }

  /** The layout for a single signature whose key and message are this instruction's own bytes. */
  predicate OwnDataOnly(d: Bytes) {
    && |d| >= 16 && d[0] == 1
    && U16At(d, 4) == 0xFFFF && U16At(d, 8) == 0xFFFF && U16At(d, 14) == 0xFFFF
  }

  /** `assert_ed25519`. */
  predicate NamesSignatureOf(ix: Instruction, signer: Pubkey, message: Bytes) {
    var d := ix.data;
    && ix.program == Ed25519
    && OwnDataOnly(d)
    && var pk, msg, len := U16At(d, 6), U16At(d, 10), U16At(d, 12);
    && |d| >= pk + 32 && |d| >= msg + len
    && d[pk..pk + 32] == signer
    && d[msg..msg + len] == message
  }

  /** `length` bytes at `offset` of the instruction data an index names: the precompile's own for 0xFFFF,
      else that of the transaction's instruction with that index. */
  function NamedBytes(all: seq<Bytes>, own: Bytes, index: nat, offset: nat, length: nat): Option<Bytes> {
    var d := if index == 0xFFFF then own else if index < |all| then all[index] else [];
    if offset + length <= |d| then Some(d[offset..offset + length]) else None
  }

  /** What Solana's Ed25519 precompile checks of its instruction data, next to the data of all the
      transaction's instructions: as many signatures as the first byte says, each with fourteen bytes that
      say where its signature, key and message are. `signed` holds every (key, message) pair whose
      signature exists. */
  predicate PrecompilePasses(signed: set<(Pubkey, Bytes)>, all: seq<Bytes>, d: Bytes) {
    && |d| >= 2
    && |d| >= 2 + 14 * (d[0] as int)
    && forall k: nat | k < d[0] as int :: SignatureHolds(signed, all, d, 2 + 14 * k)
  }

  predicate SignatureHolds(signed: set<(Pubkey, Bytes)>, all: seq<Bytes>, d: Bytes, at: nat)
    requires at + 14 <= |d|
  {
    var signature := NamedBytes(all, d, U16At(d, at + 2), U16At(d, at), 64);
    var key := NamedBytes(all, d, U16At(d, at + 6), U16At(d, at + 4), 32);
    var message := NamedBytes(all, d, U16At(d, at + 12), U16At(d, at + 8), U16At(d, at + 10));
    signature.Some? && key.Some? && message.Some? && (key.value, message.value) in signed
  }

  lemma U16Value(d: Bytes, i: nat)
    requires i + 2 <= |d|
    ensures U16At(d, i) == d[i] as int + 256 * (d[i + 1] as int)
  {
    var f := d[i..i + 2];
    assert LeValue(f) == f[0] + 256 * LeValue(f[1..]);
    assert LeValue(f[1..]) == f[1] + 256 * LeValue(f[1..][1..]);
  }

  /** One signature; then offset and instruction index of signature (48), key (16) and message (112),
      the message's length between its offset and its index. */
  function VerifyHeader(messageLength: nat): (h: Bytes)
    requires messageLength <= U16_MAX
  {
    [1, 0, 48, 0, 255, 255, 16, 0, 255, 255, 112, 0, messageLength % 256, messageLength / 256, 255, 255]
  }

  /** The instruction the client builds: header, key, signature, message. */
  function VerifyIx(signer: Pubkey, signature: Bytes, message: Bytes): Instruction
    requires |signature| == 64 && |message| <= U16_MAX
  {
    Instruction(Ed25519, [], VerifyHeader(|message|) + signer + signature + message, NoCall)
  }

  lemma HeaderFields(d: Bytes, header: Bytes, signer: Pubkey, signature: Bytes, message: Bytes)
    requires |header| == 16 && |signature| == 64 && d == header + signer + signature + message
    ensures |d| == 112 + |message|
    ensures forall i :: 0 <= i < 16 ==> d[i] == header[i]
    ensures d[16..48] == signer && d[112..112 + |message|] == message
  {
  }

  /** The layout the client builds is accepted for exactly the signer and message it carries, as
      long as the message length fits the layout's 16-bit field. */
  lemma BuiltVerificationIsRead(signer: Pubkey, signature: Bytes, message: Bytes, owner: Pubkey, wanted: Bytes)
    requires |signature| == 64 && |message| <= U16_MAX
    ensures NamesSignatureOf(VerifyIx(signer, signature, message), owner, wanted)
      <==> owner == signer && wanted == message
  {
    var d := VerifyIx(signer, signature, message).data;
    HeaderFields(d, VerifyHeader(|message|), signer, signature, message);
    U16Value(d, 4);
    U16Value(d, 6);
    U16Value(d, 8);
    U16Value(d, 10);
    U16Value(d, 12);
    U16Value(d, 14);
  }

  // ---------------------------------------------------------------- rotation

  /** `rotate_session` on the position, next to the instruction before it. */
  function Rotate(p: Position, address: Pubkey, sessionKey: Pubkey, expiry: i64, now: i64, prev: Option<Instruction>)
    : Result<Position>
  {
    var _ :- Require(sessionKey != ZERO_KEY && expiry > now, BadSessionRotation);
    var _ :- Require(now + SESSION_TTL + 3600 <= I64_MAX, Trap);
    var _ :- Require(expiry <= now + SESSION_TTL + 3600 && expiry > p.sessionExpiry, BadSessionRotation);
    var _ :- Require(prev.Some?, TransferMismatch);
    var _ :- Require(NamesSignatureOf(prev.value, p.owner, SessionMessage(address, sessionKey, expiry)),
                     BadSessionRotation);
    Ok(p.(sessionKey := sessionKey, sessionExpiry := expiry))
  }

  /** A rotation that goes through next to a verification that went through was signed by the
      owner, for exactly this position, key and expiry, and it moves the expiry forward. */
  lemma RotationWasSigned(p: Position, address: Pubkey, sessionKey: Pubkey, expiry: i64, now: i64,
                          prev: Option<Instruction>, signed: set<(Pubkey, Bytes)>, all: seq<Bytes>)
    requires prev.Some? && prev.value.program == Ed25519 ==> PrecompilePasses(signed, all, prev.value.data)
    requires Rotate(p, address, sessionKey, expiry, now, prev).Ok?
    ensures (p.owner, SessionMessage(address, sessionKey, expiry)) in signed
    ensures expiry > p.sessionExpiry && expiry > now
    ensures var t := Rotate(p, address, sessionKey, expiry, now, prev).value;
      && t == p.(sessionKey := sessionKey, sessionExpiry := expiry)
      && MayAct(t, sessionKey, now)
      && (forall k :: MayAct(t, k, now) <==> k == p.owner || k == sessionKey)
  {
    hide NamesSignatureOf, PrecompilePasses, SessionMessage;
    AcceptedIsEd25519(prev.value, p.owner, SessionMessage(address, sessionKey, expiry));
    VerifiedMeansSigned(prev.value, p.owner, SessionMessage(address, sessionKey, expiry), signed, all);
  }

  lemma AcceptedIsEd25519(ix: Instruction, signer: Pubkey, message: Bytes)
    requires NamesSignatureOf(ix, signer, message)
    ensures ix.program == Ed25519
  {
  }

  lemma VerifiedMeansSigned(ix: Instruction, signer: Pubkey, message: Bytes, signed: set<(Pubkey, Bytes)>,
                            all: seq<Bytes>)
    requires NamesSignatureOf(ix, signer, message) && PrecompilePasses(signed, all, ix.data)
    ensures ix.program == Ed25519 && (signer, message) in signed
  {
    hide U16At;
    assert SignatureHolds(signed, all, ix.data, 2 + 14 * 0);
  }

  /** A verification is accepted for a signer and a message exactly when its data starts with one
      signature and 0xFFFF for the instruction index of signature, key and message, and has that key
      and that message at the offsets in between. */
  lemma VerificationAcceptedIff(ix: Instruction, signer: Pubkey, message: Bytes)
    ensures NamesSignatureOf(ix, signer, message) <==>
      && ix.program == Ed25519
      && |ix.data| >= 16
      && var d := ix.data;
      && d[0] == 1 && d[4] == d[5] == d[8] == d[9] == d[14] == d[15] == 255
      && var key, text := d[6] as int + 256 * d[7] as int, d[10] as int + 256 * d[11] as int;
      && key + 32 <= |d| && d[key..key + 32] == signer
      && |message| == d[12] as int + 256 * d[13] as int
      && text + |message| <= |d| && d[text..text + |message|] == message
  {
    var d := ix.data;
    if |d| >= 16 {
      U16Value(d, 4);
      U16Value(d, 6);
      U16Value(d, 8);
      U16Value(d, 10);
      U16Value(d, 12);
      U16Value(d, 14);
    }
  }

  /** Next to the verification the client builds, a rotation goes through if and only if the key is one,
      the expiry lies after now, after the present one and at most seven days and an hour ahead, and the
      owner is the one who signed, for exactly this position, key and expiry. */
  lemma RotationAcceptedIff(p: Position, address: Pubkey, sessionKey: Pubkey, expiry: i64, now: i64, signer: Pubkey,
                            signature: Bytes, message: Bytes)
    requires |signature| == 64 && |message| <= U16_MAX && now <= I64_MAX - 608_400
    ensures Rotate(p, address, sessionKey, expiry, now, Some(VerifyIx(signer, signature, message))).Ok? <==>
      && sessionKey != ZERO_KEY
      && now < expiry <= now + 608_400 && p.sessionExpiry < expiry
      && signer == p.owner && message == SessionMessage(address, sessionKey, expiry)
  {
    hide SessionMessage, VerifyIx, NamesSignatureOf;
    BuiltVerificationIsRead(signer, signature, message, p.owner, SessionMessage(address, sessionKey, expiry));
  }

  /** The message always fits the layout's 16-bit length, so the owner can always sign it. */
  lemma MessageFits(address: Pubkey, sessionKey: Pubkey, expiry: i64)
    ensures |SessionMessage(address, sessionKey, expiry)| <= U16_MAX
  {
    KeyTextLength(address);
    KeyTextLength(sessionKey);
    var n: int := expiry;
    I64HasNineteenDigits();
    DecimalLength(if n < 0 then -n else n, 19);
  }

  lemma I64HasNineteenDigits()
    ensures Power(10, 19) == 10_000_000_000_000_000_000
  {
    assert Power(10, 4) == 10_000;
    assert Power(10, 8) == 100_000_000;
    assert Power(10, 12) == 1_000_000_000_000;
    assert Power(10, 16) == 10_000_000_000_000_000;
  }

  function Power(base: nat, k: nat): nat {
    if k == 0 then 1 else base * Power(base, k - 1)
  }

  lemma {:induction false} Base58Length(n: nat, k: nat)
    requires n < Power(256, k)
    ensures |Base58Digits(n)| <= 2 * k
    decreases k
  {
    if n >= 58 {
      assert n / 58 / 58 < Power(256, k - 1);
      Base58Length(n / 58 / 58, k - 1);
    } else if n > 0 {
      assert Base58Digits(n / 58) == [];
    }
  }

  lemma {:induction false} BigEndianFits(s: Bytes)
    ensures BigEndian(s) < Power(256, |s|)
  {
    if |s| > 0 {
      BigEndianFits(s[..|s| - 1]);
    }
  }

  lemma {:induction false} LeadingZerosFit(s: Bytes)
    ensures LeadingZeros(s) <= |s|
  {
    if |s| > 0 && s[0] == 0 {
      LeadingZerosFit(s[1..]);
    }
  }

  lemma KeyTextLength(key: Pubkey)
    ensures |KeyText(key)| <= 96
  {
    BigEndianFits(key);
    Base58Length(BigEndian(key), 32);
    LeadingZerosFit(key);
  }

  lemma {:induction false} DecimalLength(n: nat, k: nat)
    requires n < Power(10, k)
    ensures |DecimalDigits(n)| <= k + 1
    decreases k
  {
    if n >= 10 {
      DecimalLength(n / 10, k - 1);
    }
  }

  /** One signed message opens one rotation: replayed later, even after other rotations that only
      move the expiry forward, it is refused. */
  lemma ReplayIsRefused(p: Position, later: Position, address: Pubkey, sessionKey: Pubkey, expiry: i64,
                        now: i64, afterwards: i64, prev: Option<Instruction>, again: Option<Instruction>)
    requires Rotate(p, address, sessionKey, expiry, now, prev).Ok?
    requires later.sessionExpiry >= Rotate(p, address, sessionKey, expiry, now, prev).value.sessionExpiry
    ensures Rotate(later, address, sessionKey, expiry, afterwards, again).Err?
  {
  }

  // ----------------------------------------------------------------- members

  datatype Role = OwnerRole | ViewerRole

  datatype Member = Member(role: Role, pubkey: Pubkey)

  /** `members_args`. */
  function MembersArgs(owner: Pubkey, sessionKey: Pubkey, viewers: seq<Pubkey>): seq<Member> {
    [Member(OwnerRole, owner)]
    + (if sessionKey != ZERO_KEY then [Member(ViewerRole, sessionKey)] else [])
    + seq(|viewers|, i requires 0 <= i < |viewers| => Member(ViewerRole, viewers[i]))
  }

  /** The viewers carried over: every member but the owner and the key being replaced. */
  function KeptViewers(members: seq<Member>, owner: Pubkey, oldSession: Pubkey): seq<Pubkey> {
    if |members| == 0 then []
    else
      var k := members[0].pubkey;
      (if k != owner && k != oldSession then [k] else []) + KeptViewers(members[1..], owner, oldSession)
  }

  function Readers(members: seq<Member>): set<Pubkey> { set m | m in members :: m.pubkey }

  lemma {:induction false} KeptViewersAre(members: seq<Member>, owner: Pubkey, oldSession: Pubkey, k: Pubkey)
    ensures k in KeptViewers(members, owner, oldSession)
      <==> k in Readers(members) && k != owner && k != oldSession
  {
    if |members| > 0 {
      KeptViewersAre(members[1..], owner, oldSession, k);
      assert members == [members[0]] + members[1..];
      assert Readers(members) == {members[0].pubkey} + Readers(members[1..]);
    }
  }

  lemma MembersArgsReaders(owner: Pubkey, sessionKey: Pubkey, viewers: seq<Pubkey>, k: Pubkey)
    requires sessionKey != ZERO_KEY
    ensures k in Readers(MembersArgs(owner, sessionKey, viewers))
      <==> k == owner || k == sessionKey || k in viewers
  {
    var ms := MembersArgs(owner, sessionKey, viewers);
    assert ms[0].pubkey == owner && ms[1].pubkey == sessionKey;
    if k in viewers {
      var i :| 0 <= i < |viewers| && viewers[i] == k;
      assert ms[2 + i] == Member(ViewerRole, k);
    }
    if k == owner {
      assert ms[0] in ms;
    }
    if k == sessionKey {
      assert ms[1] in ms;
    }
    if k in Readers(ms) && k != owner && k != sessionKey {
      var m :| m in ms && m.pubkey == k;
      var j :| 0 <= j < |ms| && ms[j] == m;
      assert j >= 2 && viewers[j - 2] == k;
    }
  }

  /** The list is headed by the owner, the only member with the owner's role; the session key, if there is
      one, and everybody else are viewers. */
  predicate OwnerHeads(members: seq<Member>, owner: Pubkey) {
    && |members| > 0
    && members[0] == Member(OwnerRole, owner)
    && forall i :: 0 < i < |members| ==> members[i].role == ViewerRole
  }

  /** After a rotation the owner heads the list as the only owner, and every other reader, the new
      session key included, is only a viewer. */
  lemma RotationGivesRoles(members: seq<Member>, owner: Pubkey, oldSession: Pubkey, newSession: Pubkey)
    ensures OwnerHeads(MembersArgs(owner, newSession, KeptViewers(members, owner, oldSession)), owner)
  {
  }

  /** After a rotation a private position is readable by its owner, the new key, and exactly the
      earlier readers other than the replaced key: the old key is out unless it is the new one or
      the owner, and nobody else is added or lost. */
  lemma RotationKeepsViewers(members: seq<Member>, owner: Pubkey, oldSession: Pubkey, newSession: Pubkey, k: Pubkey)
    requires newSession != ZERO_KEY
    ensures k in Readers(MembersArgs(owner, newSession, KeptViewers(members, owner, oldSession)))
      <==> k == owner || k == newSession || (k in Readers(members) && k != oldSession)
  {
    MembersArgsReaders(owner, newSession, KeptViewers(members, owner, oldSession), k);
    KeptViewersAre(members, owner, oldSession, k);
  }

  // ----------------------------------------------------------------- account

  /** The permission account gating a private position. */
  class Permission {
    var members: seq<Member>

    constructor (members: seq<Member>)
      ensures this.members == members
    {
      this.members := members;
    }

    /** The viewers to carry over, gathered in list order. */
    method CarriedOver(owner: Pubkey, oldSession: Pubkey) returns (viewers: seq<Pubkey>)
      ensures viewers == KeptViewers(members, owner, oldSession)
    {
      viewers := [];
      for i := 0 to |members|
        invariant viewers + KeptViewers(members[i..], owner, oldSession) == KeptViewers(members, owner, oldSession)
      {
        var k := members[i].pubkey;
        assert members[i..][1..] == members[i + 1..];
        if k != owner && k != oldSession {
          viewers := viewers + [k];
        }
      }
    }
  }

  method RotateSessionHandler(position: PositionAccount, permission: Permission, address: Pubkey,
                              sessionKey: Pubkey, expiry: i64, now: i64, prev: Option<Instruction>)
    returns (r: Result<()>)
    modifies position, permission
    ensures r.Ok? <==> Rotate(old(position.View()), address, sessionKey, expiry, now, prev).Ok?
    ensures r.Err? ==> r.error == Rotate(old(position.View()), address, sessionKey, expiry, now, prev).error
    ensures r.Err? ==> position.View() == old(position.View()) && permission.members == old(permission.members)
    ensures r.Ok? ==> position.View() == Rotate(old(position.View()), address, sessionKey, expiry, now, prev).value
    ensures r.Ok? && position.isPrivate ==>
      permission.members == MembersArgs(position.owner, sessionKey,
        KeptViewers(old(permission.members), position.owner, old(position.sessionKey)))
    ensures r.Ok? && position.isPrivate ==>
      && OwnerHeads(permission.members, position.owner)
      && forall k :: k in Readers(permission.members) <==>
           || k == position.owner || k == sessionKey
           || (k in Readers(old(permission.members)) && k != old(position.sessionKey))
    ensures r.Ok? && !position.isPrivate ==> permission.members == old(permission.members)
  {
    var oldSession := position.sessionKey;
    var _ :- Require(sessionKey != ZERO_KEY && expiry > now, BadSessionRotation);
    var _ :- Require(now + SESSION_TTL + 3600 <= I64_MAX, Trap);
    var _ :- Require(expiry <= now + SESSION_TTL + 3600 && expiry > position.sessionExpiry, BadSessionRotation);
    var _ :- Require(prev.Some?, TransferMismatch);
    var message := SessionMessage(address, sessionKey, expiry);
    var _ :- Require(NamesSignatureOf(prev.value, position.owner, message), BadSessionRotation);
    position.sessionKey := sessionKey;
    position.sessionExpiry := expiry;
    if position.isPrivate {
      var viewers := permission.CarriedOver(position.owner, oldSession);
      ghost var before := permission.members;
      permission.members := MembersArgs(position.owner, sessionKey, viewers);
      RotationGivesRoles(before, position.owner, oldSession, sessionKey);
      forall k
        ensures k in Readers(permission.members) <==>
          k == position.owner || k == sessionKey || (k in Readers(before) && k != oldSession)
      {
        RotationKeepsViewers(before, position.owner, oldSession, sessionKey, k);
      }
    }
    r := Ok(());
  }
}
