/** The handshake message: a preamble, a list of tagged fields in any order, and a signature. */
module Handshake {
  import opened Bits
  import opened Octets

  type Bytes = seq<Octet>

  const KEY_SIZE := 32
  const SIGNATURE_SIZE := 64
  const MAX_PASSWORD := 64
  const META: Bytes := [109, 101, 116, 97]
  const VERSION_MAJOR := 0
  const VERSION_MINOR := 1
  const PUBLIC_KEY := 2
  const PRIORITY := 3

  const PROTOCOL_MAJOR := 0
  const PROTOCOL_MINOR := 5

  type Word = x: int | 0 <= x < 0x1_0000

  datatype Metadata = Metadata(majorVer: Word, minorVer: Word, publicKey: Bytes, priority: Octet)

  datatype Error = UnexpectedEnd | InvalidPreamble | InvalidLength | InvalidPassword | HashFailure | IncorrectPassword

  datatype Outcome<+T> = Done(value: T) | Failed(error: Error)

  /** blake2b keyed with the password, and ed25519. */
  datatype Crypto = Crypto(
    hash: (Bytes, Bytes) -> Bytes,
    sign: (Bytes, Bytes) -> Bytes,
    verify: (Bytes, Bytes, Bytes) -> bool)

  /** All that is assumed of them: a signature has its size, and verifies under the key it belongs to. */
  ghost predicate KeyPair(c: Crypto, privateKey: Bytes, publicKey: Bytes) {
    && |publicKey| == KEY_SIZE
    && forall m :: |c.sign(privateKey, m)| == SIGNATURE_SIZE && c.verify(publicKey, m, c.sign(privateKey, m))
  }

  // ----- Fields -----

  datatype Field = Field(op: Word, value: Bytes)

  predicate Printable(fs: seq<Field>) {
    forall f | f in fs :: |f.value| < 0x1_0000
  }

  function PrintField(f: Field): Bytes
    requires |f.value| < 0x1_0000
  {
    PutU16(f.op) + PutU16(|f.value|) + f.value
  }

  function Print(fs: seq<Field>): Bytes
    requires Printable(fs)
  {
    if fs == [] then [] else PrintField(fs[0]) + Print(fs[1..])
  }

  /** A known field has the size of what it carries; unknown ones may have any. */
  predicate WellSized(f: Field) {
    if f.op == VERSION_MAJOR || f.op == VERSION_MINOR then |f.value| == 2
    else if f.op == PUBLIC_KEY then |f.value| == KEY_SIZE
    else if f.op == PRIORITY then |f.value| == 1
    else true
  }

  function Apply(m: Metadata, f: Field): Metadata
    requires WellSized(f)
  {
    if f.op == VERSION_MAJOR then m.(majorVer := U16(f.value[0], f.value[1]))
    else if f.op == VERSION_MINOR then m.(minorVer := U16(f.value[0], f.value[1]))
    else if f.op == PUBLIC_KEY then m.(publicKey := f.value)
    else if f.op == PRIORITY then m.(priority := f.value[0])
    else m
  }

  predicate AllWellSized(fs: seq<Field>) {
    forall f | f in fs :: WellSized(f)
  }

  /** Fields take effect in order, so the last one of a kind wins. */
  function ApplyAll(m: Metadata, fs: seq<Field>): Metadata
    requires AllWellSized(fs)
    decreases |fs|
  {
    if fs == [] then m else ApplyAll(Apply(m, fs[0]), fs[1..])
  }

  // ----- The field loop -----

  /** What the loop leaves in the metadata, and whether it accepts. */
  function ReadFields(m: Metadata, bs: Bytes): (Metadata, bool)
    decreases |bs|
  {
    if |bs| < 4 then (m, |bs| == 0)
    else
      var op, oplen := U16(bs[0], bs[1]), U16(bs[2], bs[3]);
      if |bs| - 4 < oplen then (m, false)
      else
        var f := Field(op, bs[4..4 + oplen]);
        if !WellSized(f) then (m, false) else ReadFields(Apply(m, f), bs[4 + oplen..])
  }

  /** Reading a printed list, whatever its order: accepted exactly if every known field has its size, and then the
      result is all fields applied in order. */
  lemma {:induction false} ReadPrinted(m: Metadata, fs: seq<Field>)
    requires Printable(fs)
    ensures ReadFields(m, Print(fs)).1 <==> AllWellSized(fs)
    ensures AllWellSized(fs) ==> ReadFields(m, Print(fs)).0 == ApplyAll(m, fs)
    decreases |fs|
  {
    if fs != [] {
      var f, rest := fs[0], Print(fs[1..]);
      PrintedHead(f, rest);
      if WellSized(f) {
        ReadPrinted(Apply(m, f), fs[1..]);
      }
    }
  }

  lemma PrintedHead(f: Field, rest: Bytes)
    requires |f.value| < 0x1_0000
    ensures var bs := PrintField(f) + rest;
            && |bs| >= 4 + |f.value| && U16(bs[0], bs[1]) == f.op && U16(bs[2], bs[3]) == |f.value|
            && bs[4..4 + |f.value|] == f.value && bs[4 + |f.value|..] == rest
  {
    var bs := PrintField(f) + rest;
    var op, len := PutU16(f.op), PutU16(|f.value|);
    hide PutU16;
    assert bs == op + len + f.value + rest;
  }

  /** And conversely: what the loop accepts is a printed list of well-sized fields, and nothing else. */
  lemma {:induction false} AcceptedIsPrinted(m: Metadata, bs: Bytes) returns (fs: seq<Field>)
    requires ReadFields(m, bs).1
    ensures Printable(fs) && Print(fs) == bs && AllWellSized(fs)
    decreases |bs|
  {
    if |bs| < 4 {
      fs := [];
    } else {
      var op, oplen := U16(bs[0], bs[1]), U16(bs[2], bs[3]);
      var f := Field(op, bs[4..4 + oplen]);
      var rest := AcceptedIsPrinted(Apply(m, f), bs[4 + oplen..]);
      fs := [f] + rest;
      assert fs[1..] == rest;
      SplitField(bs, f);
    }
  }

  lemma SplitField(bs: Bytes, f: Field)
    requires |bs| >= 4 + |f.value| && f.op == U16(bs[0], bs[1]) && |f.value| == U16(bs[2], bs[3])
    requires f.value == bs[4..4 + |f.value|]
    ensures bs == PrintField(f) + bs[4 + |f.value|..]
  {
    U16Inverse(bs[0], bs[1]);
    U16Inverse(bs[2], bs[3]);
  }

  lemma U16Inverse(hi: Octet, lo: Octet)
    ensures PutU16(U16(hi, lo)) == [hi, lo]
  {
  }

  // ----- The message -----

  /** What decode makes of a stream: the fields read so far stay, also when it fails; a success leaves the rest
      of the stream unread. */
  function Decoded(c: Crypto, m: Metadata, stream: Bytes, password: Bytes): (Metadata, Outcome<nat>) {
    if |stream| < 6 then (m, Failed(UnexpectedEnd))
    else if stream[..4] != META then (m, Failed(InvalidPreamble))
    else
      var hl := U16(stream[4], stream[5]);
      if hl < SIGNATURE_SIZE then (m, Failed(InvalidLength))
      else if |stream| < 6 + hl then (m, Failed(UnexpectedEnd))
      else
        var fields, sig := stream[6..6 + hl - SIGNATURE_SIZE], stream[6 + hl - SIGNATURE_SIZE..6 + hl];
        var (m', ok) := ReadFields(m, fields);
        if !ok then (m', Failed(InvalidLength))
        else if |password| > MAX_PASSWORD then (m', Failed(InvalidPassword))
        else if |m'.publicKey| != KEY_SIZE then (m', Failed(HashFailure))
        else if !c.verify(m'.publicKey, c.hash(password, m'.publicKey), sig) then (m', Failed(IncorrectPassword))
        else (m', Done(6 + hl))
  }

  function Fields(m: Metadata): (fs: seq<Field>) {
    [Field(VERSION_MAJOR, PutU16(m.majorVer)), Field(VERSION_MINOR, PutU16(m.minorVer)),
     Field(PUBLIC_KEY, m.publicKey), Field(PRIORITY, [m.priority])]
  }

  /** A message with these fields and this signature. */
  function Message(fs: seq<Field>, sig: Bytes): Bytes
    requires Printable(fs) && |Print(fs)| + |sig| < 0x1_0000
  {
    META + PutU16(|Print(fs)| + |sig|) + Print(fs) + sig
  }

  /** The four fields of one's own metadata, printed. */
  lemma OwnFields(m: Metadata)
    requires |m.publicKey| == KEY_SIZE
    ensures Printable(Fields(m)) && AllWellSized(Fields(m)) && |Print(Fields(m))| == 53
    ensures Print(Fields(m)) ==
            (PutU16(VERSION_MAJOR) + PutU16(2) + PutU16(m.majorVer))
                + (PutU16(VERSION_MINOR) + PutU16(2) + PutU16(m.minorVer))
            + (PutU16(PUBLIC_KEY) + PutU16(KEY_SIZE) + m.publicKey) + (PutU16(PRIORITY) + PutU16(1) + [m.priority])
  {
    hide PutU16;
    var fs := Fields(m);
    PrintStep(fs);
    PrintStep(fs[1..]);
    PrintStep(fs[2..]);
    PrintStep(fs[3..]);
    assert fs[1..][1..] == fs[2..] && fs[2..][1..] == fs[3..] && fs[3..][1..] == [];
    hide Print;
  }

  lemma PrintStep(fs: seq<Field>)
    requires fs != [] && Printable(fs)
    ensures Printable(fs[1..]) && Print(fs) == PrintField(fs[0]) + Print(fs[1..])
  {
  }

  /** Applying one's own fields sets everything. */
  lemma OwnFieldsApplied(m0: Metadata, m: Metadata)
    requires |m.publicKey| == KEY_SIZE
    ensures AllWellSized(Fields(m)) && ApplyAll(m0, Fields(m)) == m
  {
    hide PutU16;
    var fs := Fields(m);
    var m1 := m0.(majorVer := m.majorVer);
    var m2 := m1.(minorVer := m.minorVer);
    ApplyStep(m0, fs);
    ApplyStep(m1, fs[1..]);
    ApplyStep(m2, fs[2..]);
    ApplyStep(m2.(publicKey := m.publicKey), fs[3..]);
    assert fs[4..] == [];
  }

  lemma ApplyStep(m: Metadata, fs: seq<Field>)
    requires fs != [] && AllWellSized(fs)
    ensures ApplyAll(m, fs) == ApplyAll(Apply(m, fs[0]), fs[1..])
  {
  }

  /** One's own message. */
  function Encoded(c: Crypto, m: Metadata, privateKey: Bytes, password: Bytes): Bytes
    requires |m.publicKey| == KEY_SIZE && |c.sign(privateKey, c.hash(password, m.publicKey))| == SIGNATURE_SIZE
  {
    OwnFields(m);
    Message(Fields(m), c.sign(privateKey, c.hash(password, m.publicKey)))
  }

  lemma MessageParts(fs: seq<Field>, sig: Bytes, rest: Bytes)
    requires Printable(fs) && |sig| == SIGNATURE_SIZE && |Print(fs)| + |sig| < 0x1_0000
    ensures var s := Message(fs, sig) + rest;
            var hl := |Print(fs)| + |sig|;
            && |s| >= 6 + hl && s[..4] == META && U16(s[4], s[5]) == hl && |Message(fs, sig)| == 6 + hl
            && s[6..6 + hl - SIGNATURE_SIZE] == Print(fs) && s[6 + hl - SIGNATURE_SIZE..6 + hl] == sig
  {
    hide Print;
    var len := PutU16(|Print(fs)| + |sig|);
    hide PutU16;
    assert Message(fs, sig) + rest == META + len + Print(fs) + sig + rest;
  }

  /** Decoding any message, its fields in any order and with unknown ones among them: accepted exactly if the known
      fields have their sizes, a key was given and the signature fits the key and the password; the result is
      all fields applied in order, and what follows the message is left unread. */
  lemma DecodeMessage(c: Crypto, m0: Metadata, fs: seq<Field>, sig: Bytes, rest: Bytes, password: Bytes)
    requires Printable(fs) && |sig| == SIGNATURE_SIZE && |Print(fs)| + |sig| < 0x1_0000
    ensures var (m, r) := Decoded(c, m0, Message(fs, sig) + rest, password);
            && (r.Done? <==> AllWellSized(fs) && |password| <= MAX_PASSWORD
                             && var k := ApplyAll(m0, fs).publicKey;
                                |k| == KEY_SIZE && c.verify(k, c.hash(password, k), sig))
            && (AllWellSized(fs) ==> m == ApplyAll(m0, fs))
            && (r.Done? ==> r.value == |Message(fs, sig)|)
  {
    MessageParts(fs, sig, rest);
    ReadPrinted(m0, fs);
    hide Print, Message, ReadFields, ApplyAll;
  }

  /** Conversely, whatever is accepted is such a message. */
  lemma AcceptedIsMessage(c: Crypto, m0: Metadata, stream: Bytes, password: Bytes) returns (fs: seq<Field>, sig: Bytes)
    requires Decoded(c, m0, stream, password).1.Done?
    ensures Printable(fs) && AllWellSized(fs) && |sig| == SIGNATURE_SIZE && |Print(fs)| + |sig| < 0x1_0000
    ensures Decoded(c, m0, stream, password).1.value == |Message(fs, sig)| <= |stream|
    ensures stream[..|Message(fs, sig)|] == Message(fs, sig)
  {
    var hl := U16(stream[4], stream[5]);
    var fields := stream[6..6 + hl - SIGNATURE_SIZE];
    sig := stream[6 + hl - SIGNATURE_SIZE..6 + hl];
    fs := AcceptedIsPrinted(m0, fields);
    U16Inverse(stream[4], stream[5]);
    hide Print, ReadFields, PutU16;
    assert stream[..6 + hl] == stream[..4] + [stream[4], stream[5]] + fields + sig;
  }

  /** What one side encodes, the other decodes, from any earlier state and with anything following. */
  lemma RoundTrip(c: Crypto, m0: Metadata, m: Metadata, privateKey: Bytes, password: Bytes, rest: Bytes)
    requires KeyPair(c, privateKey, m.publicKey) && |password| <= MAX_PASSWORD
    ensures Decoded(c, m0, Encoded(c, m, privateKey, password) + rest, password) ==
            (m, Done(|Encoded(c, m, privateKey, password)|))
  {
    OwnFields(m);
    OwnFieldsApplied(m0, m);
    hide PutU16, Print, Message, ApplyAll, Decoded;
    DecodeMessage(c, m0, Fields(m), c.sign(privateKey, c.hash(password, m.publicKey)), rest, password);
  }

  /** With another password it decodes exactly if the signature happens to fit that one too. */
  lemma OtherPassword(c: Crypto, m0: Metadata, m: Metadata, privateKey: Bytes, password: Bytes, other: Bytes,
      rest: Bytes)
    requires KeyPair(c, privateKey, m.publicKey) && |password| <= MAX_PASSWORD
    ensures Decoded(c, m0, Encoded(c, m, privateKey, password) + rest, other).1.Done?
            <==> |other| <= MAX_PASSWORD
                 && c.verify(m.publicKey, c.hash(other, m.publicKey), c.sign(privateKey, c.hash(password, m.publicKey)))
  {
    OwnFields(m);
    OwnFieldsApplied(m0, m);
    hide PutU16, Print, Message, ApplyAll, Decoded;
    DecodeMessage(c, m0, Fields(m), c.sign(privateKey, c.hash(password, m.publicKey)), rest, other);
  }

  /** A message cut short is never accepted. */
  lemma TruncatedIsRejected(c: Crypto, m0: Metadata, fs: seq<Field>, sig: Bytes, n: nat, password: Bytes)
    requires Printable(fs) && |sig| == SIGNATURE_SIZE && |Print(fs)| + |sig| < 0x1_0000 && n < |Message(fs, sig)|
    ensures Decoded(c, m0, Message(fs, sig)[..n], password) == (m0, Failed(UnexpectedEnd))
  {
    MessageParts(fs, sig, []);
    var s := Message(fs, sig);
    assert s + [] == s;
    hide Print, Message, ReadFields;
    if n >= 6 {
      assert s[..n][..4] == s[..4] && s[..n][4] == s[4] && s[..n][5] == s[5];
    }
  }

  // ----- The wire format in numbers -----

  /** What goes over the wire for a key of 32 bytes and a signature of 64. */
  function Wire(m: Metadata, sig: Bytes): Bytes {
    [109, 101, 116, 97] + [0, 117] + [0, 0, 0, 2] + PutU16(m.majorVer) + [0, 1, 0, 2] + PutU16(m.minorVer)
    + [0, 2, 0, 32] + m.publicKey + [0, 3, 0, 1, m.priority] + sig
  }

  /** One's own message, byte for byte. */
  lemma EncodedBytes(c: Crypto, m: Metadata, privateKey: Bytes, password: Bytes)
    requires |m.publicKey| == 32 && |c.sign(privateKey, c.hash(password, m.publicKey))| == 64
    ensures Encoded(c, m, privateKey, password) == Wire(m, c.sign(privateKey, c.hash(password, m.publicKey)))
  {
    var sig := c.sign(privateKey, c.hash(password, m.publicKey));
    OwnFields(m);
    assert Encoded(c, m, privateKey, password) == Message(Fields(m), sig);
    hide Encoded;
    PrintedFields(m);
    WireMessage(m, sig);
  }

  lemma WireMessage(m: Metadata, sig: Bytes)
    requires Printable(Fields(m)) && |Print(Fields(m))| == 53 && |sig| == 64
    requires Print(Fields(m)) == FieldBytes(PutU16(m.majorVer), PutU16(m.minorVer), m.publicKey, m.priority)
    ensures Message(Fields(m), sig) == Wire(m, sig)
  {
    hide Print, PutU16, Fields, Printable, FieldBytes;
    SmallNumber(117);
    JoinFields(PutU16(m.majorVer), PutU16(m.minorVer), m.publicKey, m.priority, sig);
  }

  function FieldBytes(major: Bytes, minor: Bytes, key: Bytes, priority: Octet): Bytes {
    ([0, 0] + [0, 2] + major) + ([0, 1] + [0, 2] + minor) + ([0, 2] + [0, 32] + key) + ([0, 3] + [0, 1] + [priority])
  }

  lemma PrintedFields(m: Metadata)
    requires |m.publicKey| == 32
    ensures Print(Fields(m)) == FieldBytes(PutU16(m.majorVer), PutU16(m.minorVer), m.publicKey, m.priority)
  {
    OwnFields(m);
    hide Print, PutU16, Fields, Printable, AllWellSized, FieldBytes;
    SmallNumbers();
    NumberedBytes(PutU16(m.majorVer), PutU16(m.minorVer), m.publicKey, m.priority,
                  [0, 0], [0, 1], [0, 2], [0, 3], [0, 32]);
  }

  lemma SmallNumbers()
    ensures PutU16(VERSION_MAJOR) == [0, 0] && PutU16(VERSION_MINOR) == [0, 1] && PutU16(PUBLIC_KEY) == [0, 2]
    ensures PutU16(PRIORITY) == [0, 3] && PutU16(KEY_SIZE) == [0, 32] && PutU16(2) == [0, 2] && PutU16(1) == [0, 1]
  {
    SmallNumber(0);
    SmallNumber(1);
    SmallNumber(2);
    SmallNumber(3);
    SmallNumber(32);
    hide PutU16;
  }

  lemma NumberedBytes(major: Bytes, minor: Bytes, key: Bytes, priority: Octet,
                      b0: Bytes, b1: Bytes, b2: Bytes, b3: Bytes, b32: Bytes)
    requires b0 == [0, 0] && b1 == [0, 1] && b2 == [0, 2] && b3 == [0, 3] && b32 == [0, 32]
    ensures (b0 + b2 + major) + (b1 + b2 + minor) + (b2 + b32 + key) + (b3 + b1 + [priority]) ==
            FieldBytes(major, minor, key, priority)
  {
  }

  lemma SmallNumber(n: Octet)
    ensures PutU16(n) == [0, n]
  {
  }

  lemma JoinFields(major: Bytes, minor: Bytes, key: Bytes, priority: Octet, sig: Bytes)
    ensures META + [0, 117] + FieldBytes(major, minor, key, priority) + sig ==
            [109, 101, 116, 97] + [0, 117] + [0, 0, 0, 2] + major + [0, 1, 0, 2] + minor
            + [0, 2, 0, 32] + key + [0, 3, 0, 1, priority] + sig
  {
  }

  /** Fields 0 and 1 have two bytes, field 2 the size of a key, field 3 one; all others may have any. */
  lemma Sizes(f: Field)
    ensures WellSized(f) <==> (f.op == 0 || f.op == 1 ==> |f.value| == 2) && (f.op == 2 ==> |f.value| == 32)
                              && (f.op == 3 ==> |f.value| == 1)
  {
  }

  /** The last field with this number. */
  function Last(fs: seq<Field>, op: Word): Option<Bytes> {
    if fs == [] then None
    else if fs[|fs| - 1].op == op then Some(fs[|fs| - 1].value)
    else Last(fs[..|fs| - 1], op)
  }

  lemma {:induction false} ApplyAllAppend(m: Metadata, fs: seq<Field>, f: Field)
    requires AllWellSized(fs) && WellSized(f)
    ensures AllWellSized(fs + [f]) && ApplyAll(m, fs + [f]) == Apply(ApplyAll(m, fs), f)
    decreases |fs|
  {
    hide Apply, WellSized;
    assert forall g | g in fs + [f] :: g in fs || g == f;
    if fs == [] {
      assert fs + [f] == [f] && [f][1..] == [];
    } else {
      assert (fs + [f])[1..] == fs[1..] + [f];
      ApplyAllAppend(Apply(m, fs[0]), fs[1..], f);
    }
  }

  /** Each part of the metadata is that of the last field with its number, and as before if there is none: 0 and 1 are
      the version, 2 the key, 3 the priority, and no other field matters. */
  lemma {:induction false} LastWins(m: Metadata, fs: seq<Field>)
    requires AllWellSized(fs)
    ensures Last(fs, 0).Some? ==> |Last(fs, 0).value| == 2
    ensures Last(fs, 1).Some? ==> |Last(fs, 1).value| == 2
    ensures Last(fs, 3).Some? ==> |Last(fs, 3).value| == 1
    ensures var a := ApplyAll(m, fs);
            && a.majorVer == (if Last(fs, 0).Some? then U16(Last(fs, 0).value[0], Last(fs, 0).value[1]) else m.majorVer)
            && a.minorVer == (if Last(fs, 1).Some? then U16(Last(fs, 1).value[0], Last(fs, 1).value[1]) else m.minorVer)
            && a.publicKey == (if Last(fs, 2).Some? then Last(fs, 2).value else m.publicKey)
            && a.priority == (if Last(fs, 3).Some? then Last(fs, 3).value[0] else m.priority)
    decreases |fs|
  {
    if fs != [] {
      var n := |fs| - 1;
      assert fs == fs[..n] + [fs[n]];
      LastWins(m, fs[..n]);
      ApplyAllAppend(m, fs[..n], fs[n]);
      Sizes(fs[n]);
      hide ApplyAll;
    }
  }

  /** Why a stream is refused, in the order of the checks: it ends before its header or the length it announces, it
      does not begin with "meta", it announces less than a signature, or its fields are not a list of well-sized ones;
      the password is too long, no key is known, or the signature does not fit. */
  lemma RefusedExactly(c: Crypto, m0: Metadata, s: Bytes, password: Bytes)
    ensures var (m, r) := Decoded(c, m0, s, password);
            var begins := |s| >= 6 && s[..4] == [109, 101, 116, 97];
            var hl := if |s| >= 6 then U16(s[4], s[5]) else 0;
            var whole := begins && hl >= 64 && |s| >= 6 + hl;
            var listed := whole && exists fs :: Printable(fs) && AllWellSized(fs) && Print(fs) == s[6..6 + hl - 64];
            && (r == Failed(UnexpectedEnd) <==> |s| < 6 || (begins && hl >= 64 && |s| < 6 + hl))
            && (r == Failed(InvalidPreamble) <==> |s| >= 6 && !begins)
            && (r == Failed(InvalidLength) <==> begins && (hl < 64 || (whole && !listed)))
            && (r == Failed(InvalidPassword) <==> listed && |password| > 64)
            && (r == Failed(HashFailure) <==> listed && |password| <= 64 && |m.publicKey| != 32)
            && (r == Failed(IncorrectPassword) <==>
                  listed && |password| <= 64 && |m.publicKey| == 32
                  && !c.verify(m.publicKey, c.hash(password, m.publicKey), s[6 + hl - 64..6 + hl]))
  {
    hide ReadFields, Print, U16, AllWellSized, Printable;
    if |s| >= 6 && U16(s[4], s[5]) >= 64 && |s| >= 6 + U16(s[4], s[5]) {
      ListedExactly(m0, s[6..6 + U16(s[4], s[5]) - 64]);
    }
  }

  lemma ListedExactly(m: Metadata, bs: Bytes)
    ensures ReadFields(m, bs).1 <==> exists fs :: Printable(fs) && AllWellSized(fs) && Print(fs) == bs
  {
    if ReadFields(m, bs).1 {
      var fs := AcceptedIsPrinted(m, bs);
    }
    if fs :| Printable(fs) && AllWellSized(fs) && Print(fs) == bs {
      ReadPrinted(m, fs);
    }
  }

  /** The metadata of one side of a connection. */
  class VersionMetadata {
    var majorVer: Word
    var minorVer: Word
    var publicKey: Bytes
    var priority: Octet

    constructor (publicKey: Bytes, priority: Octet)
      ensures Value() == Metadata(0, 5, publicKey, priority)
    {
      majorVer, minorVer := PROTOCOL_MAJOR, PROTOCOL_MINOR;
      this.publicKey, this.priority := publicKey, priority;
    }

    ghost function Value(): Metadata
      reads this
    {
      Metadata(majorVer, minorVer, publicKey, priority)
    }

    method Encode(c: Crypto, privateKey: Bytes, password: Bytes) returns (r: Outcome<Bytes>)
      requires forall x :: |c.sign(privateKey, x)| == SIGNATURE_SIZE
      ensures r.Done? <==> |password| <= MAX_PASSWORD && |publicKey| == KEY_SIZE
      ensures r.Done? ==> r.value == Encoded(c, Value(), privateKey, password)
      ensures r.Done? ==> r.value == Wire(Value(), c.sign(privateKey, c.hash(password, publicKey)))
      ensures r.Failed? ==> r.error == if |password| > MAX_PASSWORD then InvalidPassword else HashFailure
    {
      hide PutU16, Print;
      var bs := META + [0, 0];
      bs := bs + (PutU16(VERSION_MAJOR) + PutU16(2) + PutU16(majorVer));
      bs := bs + (PutU16(VERSION_MINOR) + PutU16(2) + PutU16(minorVer));
      bs := bs + (PutU16(PUBLIC_KEY) + PutU16(KEY_SIZE) + publicKey);
      bs := bs + (PutU16(PRIORITY) + PutU16(1) + [priority]);
      if |password| > MAX_PASSWORD {
        return Failed(InvalidPassword);
      }
      if |publicKey| != KEY_SIZE {
        return Failed(HashFailure);
      }
      OwnFields(Value());
      assert bs == META + [0, 0] + Print(Fields(Value()));
      bs := bs + c.sign(privateKey, c.hash(password, publicKey));
      bs := bs[..4] + PutU16(|bs| - 6) + bs[6..];
      EncodedBytes(c, Value(), privateKey, password);
      return Done(bs);
    }

    method Decode(c: Crypto, stream: Bytes, password: Bytes) returns (r: Outcome<nat>)
      modifies this
      ensures (Value(), r) == Decoded(c, old(Value()), stream, password)
    {
      if |stream| < 6 {
        return Failed(UnexpectedEnd);
      }
      if stream[..4] != META {
        return Failed(InvalidPreamble);
      }
      var hl := U16(stream[4], stream[5]);
      if hl < SIGNATURE_SIZE {
        return Failed(InvalidLength);
      }
      if |stream| < 6 + hl {
        return Failed(UnexpectedEnd);
      }
      var bs := stream[6..6 + hl];
      var sig := bs[|bs| - SIGNATURE_SIZE..];
      bs := bs[..|bs| - SIGNATURE_SIZE];
      assert bs == stream[6..6 + hl - SIGNATURE_SIZE] && sig == stream[6 + hl - SIGNATURE_SIZE..6 + hl];
      var ok := ReadAll(bs);
      if !ok {
        return Failed(InvalidLength);
      }
      if |password| > MAX_PASSWORD {
        return Failed(InvalidPassword);
      }
      if |publicKey| != KEY_SIZE {
        return Failed(HashFailure);
      }
      var hash := c.hash(password, publicKey);
      if !c.verify(publicKey, hash, sig) {
        return Failed(IncorrectPassword);
      }
      return Done(6 + hl);
    }

    /** The field loop of decode. */
    method ReadAll(fields: Bytes) returns (ok: bool)
      modifies this
      ensures (Value(), ok) == ReadFields(old(Value()), fields)
    {
      var bs := fields;
      while |bs| >= 4
        invariant ReadFields(Value(), bs) == ReadFields(old(Value()), fields)
        decreases |bs|
      {
        var op := U16(bs[0], bs[1]);
        var oplen := U16(bs[2], bs[3]);
        if |bs| - 4 < oplen {
          return false;
        }
        var field := bs[4..4 + oplen];
        if op == VERSION_MAJOR {
          if |field| != 2 {
            return false;
          }
          majorVer := U16(field[0], field[1]);
        } else if op == VERSION_MINOR {
          if |field| != 2 {
            return false;
          }
          minorVer := U16(field[0], field[1]);
        } else if op == PUBLIC_KEY {
          if |field| != KEY_SIZE {
            return false;
          }
          publicKey := field;
        } else if op == PRIORITY {
          if |field| != 1 {
            return false;
          }
          priority := field[0];
        }
        bs := bs[4 + oplen..];
      }
      return |bs| == 0;
    }

    /** Whether the other side speaks this version of the protocol. */
    method Check() returns (ok: bool)
      ensures ok <==> majorVer == 0 && minorVer == 5 && |publicKey| == 32
    {
      if majorVer != PROTOCOL_MAJOR {
        return false;
      } else if minorVer != PROTOCOL_MINOR {
        return false;
      } else if |publicKey| != KEY_SIZE {
        return false;
      } else {
        return true;
      }
    }
  }
}
