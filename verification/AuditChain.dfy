/** The tamper-evident audit chain: every entry carries a MAC over its predecessor's MAC and its
    own fields.

    HMAC-SHA256 under the audit key is an arbitrary function from byte strings to 32-byte
    digests. Nothing is assumed about it, so whatever the proofs cannot exclude is handed back
    as a concrete MAC collision or a concrete forgery found in the logs.
 */
module AuditChain {
  import opened Bytes
  import opened Framing

  type Digest = d: Bytes | |d| == 32 witness seq(32, i => 'a')

  /** HMAC-SHA256 keyed with the audit key. */
  type Mac = Bytes -> Digest

  const GENESIS_MAC: Field := "genesis"
  const PAYLOAD_KEY_DOMAIN: Bytes := "cortexkit-credentials/audit-payload-key/v1"

  datatype MacFields = MacFields(
    seqNo: i64,
    tsMs: i64,
    op: Field,
    credentialId: Option<Field>,
    payloadHash: Option<Field>,
    actor: Field,
    alarm: bool,
    alarmReason: Option<Field>)

  datatype AuditEntry = AuditEntry(fields: MacFields, prevMac: Field, entryMac: Field)

  // ---------------------------------------------------------------- hexadecimal text

  function HexDigit(n: int): byte
    requires 0 <= n < 16
  {
    if n < 10 then ('0' as int + n) as char else ('a' as int + n - 10) as char
  }

  function HexByte(b: byte): Bytes {
    [HexDigit(b as int / 16), HexDigit(b as int % 16)]
  }

  function Hex(bytes: Bytes): Bytes {
    Concat(HexByte, bytes)
  }

  lemma {:induction false} HexLength(bytes: Bytes)
    ensures |Hex(bytes)| == 2 * |bytes|
  {
    if bytes != [] {
      HexLength(bytes[1..]);
    }
  }

  lemma HexByteSeparable(x: byte, y: byte)
    ensures Separable(HexByte, x, y)
  {
    forall r, s | HexByte(x) + r == HexByte(y) + s ensures x == y && r == s {
      var b := HexByte(x) + r;
      assert b[0] == HexByte(y)[0] && b[1] == HexByte(y)[1];
      assert b[2..] == r && b[2..] == s;
      assert x as int / 16 == y as int / 16 && x as int % 16 == y as int % 16;
    }
  }

  lemma HexInjective(a: Bytes, b: Bytes)
    requires Hex(a) == Hex(b)
    ensures a == b
  {
    HexLength(a);
    HexLength(b);
    forall i | 0 <= i < |a| ensures Separable(HexByte, a[i], b[i]) {
      HexByteSeparable(a[i], b[i]);
    }
    assert Hex(a) + [] == Hex(b) + [];
    ConcatPrefixFree(HexByte, a, b, [], []);
  }

  method HexText(bytes: Bytes) returns (s: Bytes)
    ensures s == Hex(bytes)
  {
    s := [];
    for i := 0 to |bytes|
      invariant s == Hex(bytes[..i])
    {
      ConcatPush(HexByte, bytes[..i], bytes[i]);
      assert bytes[..i + 1] == bytes[..i] + [bytes[i]];
      s := s + [HexDigit(bytes[i] as int / 16), HexDigit(bytes[i] as int % 16)];
    }
    assert bytes[..|bytes|] == bytes;
  }

  // ---------------------------------------------------------------- the MAC-covered bytes

  /** What is fed to the MAC: a mandatory field, or one that may be absent. */
  datatype Item = Whole(field: Field) | Maybe(option: Option<Field>)

  function Feed(item: Item): Bytes {
    match item
    case Whole(field) => Frame(field)
    case Maybe(None) => [0 as char]
    case Maybe(Some(field)) => [1 as char] + Frame(field)
  }

  lemma FeedSeparable(x: Item, y: Item)
    requires x.Whole? == y.Whole?
    ensures Separable(Feed, x, y)
  {
    forall r, s | Feed(x) + r == Feed(y) + s ensures x == y && r == s {
      if x.Whole? {
        FrameSeparable(x.field, y.field);
      } else {
        FeedOptionInjective(x.option, y.option, r, s);
      }
    }
  }

  lemma FeedOptionInjective(x: Option<Field>, y: Option<Field>, r: Bytes, s: Bytes)
    requires Feed(Maybe(x)) + r == Feed(Maybe(y)) + s
    ensures x == y && r == s
  {
    var b := Feed(Maybe(x)) + r;
    assert b[0] == Feed(Maybe(x))[0] && b[0] == Feed(Maybe(y))[0];
    if x.Some? {
      assert b[1..] == Frame(x.value) + r && b[1..] == Frame(y.value) + s;
      FrameSeparable(x.value, y.value);
    } else {
      assert b[1..] == r && b[1..] == s;
    }
  }

  function AlarmByte(alarm: bool): Field {
    if alarm then [1 as char] else [0 as char]
  }

  function MacItems(prevMac: Field, f: MacFields): (items: seq<Item>) {
    [Whole(prevMac), Whole(I64Bytes(f.seqNo)), Whole(I64Bytes(f.tsMs)), Whole(f.op),
     Maybe(f.credentialId), Maybe(f.payloadHash), Whole(f.actor), Whole(AlarmByte(f.alarm)),
     Maybe(f.alarmReason)]
  }

  /** The bytes an entry's MAC covers. */
  function MacInput(prevMac: Field, f: MacFields): Bytes {
    Concat(Feed, MacItems(prevMac, f))
  }

  /** No crafted field value can shift a boundary or alias a missing value. */
  lemma MacInputInjective(p: Field, f: MacFields, q: Field, g: MacFields)
    requires MacInput(p, f) == MacInput(q, g)
    ensures p == q && f == g
  {
    var a, b := MacItems(p, f), MacItems(q, g);
    forall i | 0 <= i < |a| ensures Separable(Feed, a[i], b[i]) {
      FeedSeparable(a[i], b[i]);
    }
    assert MacInput(p, f) + [] == MacInput(p, f) && MacInput(q, g) + [] == MacInput(q, g);
    ConcatPrefixFree(Feed, a, b, [], []);
    assert a[0] == b[0] && a[1] == b[1] && a[2] == b[2] && a[3] == b[3] && a[4] == b[4];
    assert a[5] == b[5] && a[6] == b[6] && a[7] == b[7] && a[8] == b[8];
    I64BytesInjective(f.seqNo, g.seqNo);
    I64BytesInjective(f.tsMs, g.tsMs);
  }

  /** The key-derivation label can never be an entry's MAC input: every entry feeds more bytes. */
  lemma PayloadDomainSeparated(p: Field, f: MacFields)
    ensures MacInput(p, f) != PAYLOAD_KEY_DOMAIN
  {
    var items := MacItems(p, f);
    assert items[0..] == items;
    forall k | 0 <= k < |items|
      ensures Concat(Feed, items[k..]) == Feed(items[k]) + Concat(Feed, items[k + 1..])
    {
      assert items[k..][1..] == items[k + 1..];
    }
    assert |Feed(items[0])| + |Feed(items[1])| + |Feed(items[2])| + |Feed(items[3])| > 42;
  }

  /** HMAC state as an accumulator: the bytes fed so far. */
  class HmacState {
    var fed: Bytes

    constructor ()
      ensures fed == []
    {
      fed := [];
    }

    method Update(bytes: Bytes)
      modifies this
      ensures fed == old(fed) + bytes
    {
      fed := fed + bytes;
    }

    method FeedField(field: Field)
      modifies this
      ensures fed == old(fed) + Feed(Whole(field))
    {
      Update(LeBytes(|field|, 8));
      Update(field);
    }

    method FeedOptional(field: Option<Field>)
      modifies this
      ensures fed == old(fed) + Feed(Maybe(field))
    {
      match field
      case Some(bytes) =>
        Update([1 as char]);
        FeedField(bytes);
      case None =>
        Update([0 as char]);
    }
  }

  function EntryMac(mac: Mac, prevMac: Field, f: MacFields): (r: Field)
    ensures |r| == 64
  {
    HexLength(mac(MacInput(prevMac, f)));
    Hex(mac(MacInput(prevMac, f)))
  }

  lemma FeedNext(items: seq<Item>, k: nat)
    requires k < |items|
    ensures Concat(Feed, items[..k]) + Feed(items[k]) == Concat(Feed, items[..k + 1])
    ensures k == 0 ==> Concat(Feed, items[..k + 1]) == Feed(items[0])
  {
    assert items[..k + 1] == items[..k] + [items[k]];
    ConcatPush(Feed, items[..k], items[k]);
  }

  method ComputeEntryMac(mac: Mac, prevMac: Field, f: MacFields) returns (r: Field)
    ensures r == EntryMac(mac, prevMac, f)
  {
    hide Feed, Concat;
    var state := new HmacState();
    ghost var items := MacItems(prevMac, f);
    state.FeedField(prevMac);
    FeedNext(items, 0);
    state.FeedField(I64Bytes(f.seqNo));
    FeedNext(items, 1);
    state.FeedField(I64Bytes(f.tsMs));
    FeedNext(items, 2);
    state.FeedField(f.op);
    FeedNext(items, 3);
    state.FeedOptional(f.credentialId);
    FeedNext(items, 4);
    state.FeedOptional(f.payloadHash);
    FeedNext(items, 5);
    state.FeedField(f.actor);
    FeedNext(items, 6);
    state.FeedField(AlarmByte(f.alarm));
    FeedNext(items, 7);
    state.FeedOptional(f.alarmReason);
    FeedNext(items, 8);
    assert items[..9] == items;
    var text := HexText(mac(state.fed));
    HexLength(mac(state.fed));
    r := text;
  }

  // ---------------------------------------------------------------- acceptance

  /** The MAC a next entry must name as its predecessor. */
  function Tip(es: seq<AuditEntry>): Field {
    if es == [] then GENESIS_MAC else es[|es| - 1].entryMac
  }

  predicate Linked(mac: Mac, prev: Field, e: AuditEntry) {
    e.prevMac == prev && e.entryMac == EntryMac(mac, e.prevMac, e.fields)
  }

  predicate LinkedAt(mac: Mac, es: seq<AuditEntry>, i: nat)
    requires i < |es|
  {
    Linked(mac, if i == 0 then GENESIS_MAC else es[i - 1].entryMac, es[i])
  }

  /** Every link and every MAC of the log holds. */
  ghost predicate Accepted(mac: Mac, es: seq<AuditEntry>) {
    forall i :: 0 <= i < |es| ==> LinkedAt(mac, es, i)
  }

  ghost predicate FirstBroken(mac: Mac, es: seq<AuditEntry>, i: nat)
    requires i < |es|
  {
    Accepted(mac, es[..i]) && !Accepted(mac, es[..i + 1])
  }

  /** Exact: `None` iff the log is accepted, otherwise the seq of the entry that breaks the
      longest accepted prefix. */
  method VerifyChain(mac: Mac, entries: seq<AuditEntry>) returns (broken: Option<i64>)
    ensures broken.None? <==> Accepted(mac, entries)
    ensures broken.Some? ==>
      exists i :: 0 <= i < |entries| && FirstBroken(mac, entries, i) && entries[i].fields.seqNo == broken.value
  {
    var expectedPrev := GENESIS_MAC;
    for i := 0 to |entries|
      invariant expectedPrev == Tip(entries[..i])
      invariant Accepted(mac, entries[..i])
    {
      var e := entries[i];
      AcceptedStep(mac, entries, i);
      if e.prevMac != expectedPrev {
        AcceptedPrefix(mac, entries, i + 1);
        return Some(e.fields.seqNo);
      }
      var recomputed := ComputeEntryMac(mac, e.prevMac, e.fields);
      if recomputed != e.entryMac {
        AcceptedPrefix(mac, entries, i + 1);
        return Some(e.fields.seqNo);
      }
      expectedPrev := e.entryMac;
    }
    assert entries[..|entries|] == entries;
    broken := None;
  }

  lemma AcceptedStep(mac: Mac, es: seq<AuditEntry>, i: nat)
    requires i < |es| && Accepted(mac, es[..i])
    ensures Accepted(mac, es[..i + 1]) <==> Linked(mac, Tip(es[..i]), es[i])
  {
    hide EntryMac;
    var p := es[..i + 1];
    forall j | 0 <= j < i ensures LinkedAt(mac, p, j) {
      assert LinkedAt(mac, es[..i], j);
    }
    assert LinkedAt(mac, p, i) <==> Linked(mac, Tip(es[..i]), es[i]);
  }

  /** Truncation is invisible: every prefix of an accepted log is accepted. */
  lemma AcceptedPrefix(mac: Mac, es: seq<AuditEntry>, k: nat)
    requires k <= |es|
    ensures Accepted(mac, es) ==> Accepted(mac, es[..k])
  {
    hide EntryMac;
    if Accepted(mac, es) {
      var p := es[..k];
      forall j | 0 <= j < k ensures LinkedAt(mac, p, j) {
        assert LinkedAt(mac, es, j);
      }
    }
  }

  /** A log stays accepted under an append exactly when the new entry chains to its tip. */
  lemma AcceptedAppend(mac: Mac, es: seq<AuditEntry>, e: AuditEntry)
    requires Accepted(mac, es)
    ensures Accepted(mac, es + [e]) <==> Linked(mac, Tip(es), e)
  {
    hide EntryMac;
    var l := es + [e];
    assert l[..|es|] == es && l[..|es| + 1] == l;
    AcceptedStep(mac, l, |es|);
  }

  // ---------------------------------------------------------------- tamper evidence

  function InputOf(e: AuditEntry): Bytes {
    MacInput(e.prevMac, e.fields)
  }

  /** Two different byte strings with one digest, both read off log entries. */
  predicate Collide(mac: Mac, e: AuditEntry, f: AuditEntry) {
    InputOf(e) != InputOf(f) && mac(InputOf(e)) == mac(InputOf(f))
  }

  ghost predicate CollisionBetween(mac: Mac, es: seq<AuditEntry>, fs: seq<AuditEntry>) {
    exists i, j :: 0 <= i < |es| && 0 <= j < |fs| && Collide(mac, es[i], fs[j])
  }

  /** Entries of accepted logs that carry one MAC are one entry, or their inputs collide. */
  lemma SameMacSameEntry(mac: Mac, es: seq<AuditEntry>, i: nat, fs: seq<AuditEntry>, j: nat)
    requires Accepted(mac, es) && Accepted(mac, fs) && i < |es| && j < |fs|
    requires es[i].entryMac == fs[j].entryMac
    ensures es[i] == fs[j] || CollisionBetween(mac, es, fs)
  {
    assert LinkedAt(mac, es, i) && LinkedAt(mac, fs, j);
    HexInjective(mac(InputOf(es[i])), mac(InputOf(fs[j])));
    assert Collide(mac, es[i], fs[j]) <==> InputOf(es[i]) != InputOf(fs[j]);
    if InputOf(es[i]) == InputOf(fs[j]) {
      MacInputInjective(es[i].prevMac, es[i].fields, fs[j].prevMac, fs[j].fields);
    }
  }

  /** Logs of any lengths that end in one MAC are the same log, or contain a MAC collision. In
      particular a longer log never passes for a shorter one. */
  lemma {:induction false} TipCommitsToLog(mac: Mac, es: seq<AuditEntry>, fs: seq<AuditEntry>)
    requires Accepted(mac, es) && Accepted(mac, fs) && Tip(es) == Tip(fs)
    ensures es == fs || CollisionBetween(mac, es, fs)
    decreases |es|
  {
    hide EntryMac, MacInput, Hex;
    if es == [] || fs == [] {
      TipLength(mac, es);
      TipLength(mac, fs);
    } else {
      var m, n := |es| - 1, |fs| - 1;
      SameMacSameEntry(mac, es, m, fs, n);
      if es[m] == fs[n] {
        AcceptedPrefix(mac, es, m);
        AcceptedPrefix(mac, fs, n);
        assert LinkedAt(mac, es, m) && LinkedAt(mac, fs, n);
        TipCommitsToLog(mac, es[..m], fs[..n]);
        assert es == es[..m] + [es[m]] && fs == fs[..n] + [fs[n]];
      }
    }
  }

  lemma TipLength(mac: Mac, es: seq<AuditEntry>)
    requires Accepted(mac, es)
    ensures |Tip(es)| == if es == [] then 7 else 64
  {
    if es != [] {
      assert LinkedAt(mac, es, |es| - 1);
    }
  }

  /** Every byte string the vault itself puts through the MAC while it writes `es`. */
  ghost predicate Queried(es: seq<AuditEntry>, input: Bytes) {
    input == PAYLOAD_KEY_DOMAIN || exists i :: 0 <= i < |es| && InputOf(es[i]) == input
  }

  /** Entry `j` of `fs` departs from `es` and carries a MAC the vault never computed. */
  ghost predicate ForgedAt(mac: Mac, es: seq<AuditEntry>, fs: seq<AuditEntry>, j: nat) {
    j < |fs| && fs[..j] <= es && !Queried(es, InputOf(fs[j])) &&
    fs[j].entryMac == Hex(mac(InputOf(fs[j])))
  }

  /** The guarantee and its limit: against a log `es` the vault wrote, an accepted log `fs` is a
      truncation of it, or exhibits a forged MAC at the entry where it departs, or `es` itself
      holds a MAC collision. No edit, insertion or reordering escapes. */
  lemma {:induction false} AlteredLogIsTruncationOrForgery(mac: Mac, es: seq<AuditEntry>, fs: seq<AuditEntry>)
    requires Accepted(mac, es) && Accepted(mac, fs)
    ensures fs <= es || (exists j: nat :: ForgedAt(mac, es, fs, j)) || CollisionBetween(mac, es, es)
    decreases |fs|
  {
    hide EntryMac, MacInput, Hex;
    if fs != [] {
      var n := |fs| - 1;
      AcceptedPrefix(mac, fs, n);
      AlteredLogIsTruncationOrForgery(mac, es, fs[..n]);
      assert fs == fs[..n] + [fs[n]];
      if j: nat :| ForgedAt(mac, es, fs[..n], j) {
        assert fs[..n][..j] == fs[..j] && ForgedAt(mac, es, fs, j);
      } else if fs[..n] <= es && !CollisionBetween(mac, es, es) {
        NextEntryQueriedOnce(mac, es, fs);
      }
    }
  }

  lemma CollisionWidens(mac: Mac, es: seq<AuditEntry>, k: nat, n: nat)
    requires k <= |es| && n <= |es|
    ensures CollisionBetween(mac, es[..k], es[..n]) ==> CollisionBetween(mac, es, es)
  {
    hide MacInput;
    if i, j :| 0 <= i < k && 0 <= j < n && Collide(mac, es[..k][i], es[..n][j]) {
      assert Collide(mac, es[i], es[j]);
    }
  }

  lemma NextEntryQueriedOnce(mac: Mac, es: seq<AuditEntry>, fs: seq<AuditEntry>)
    requires Accepted(mac, es) && Accepted(mac, fs) && fs != [] && fs[..|fs| - 1] <= es
    requires !CollisionBetween(mac, es, es)
    ensures fs <= es || ForgedAt(mac, es, fs, |fs| - 1)
  {
    hide MacInput, Hex;
    var n := |fs| - 1;
    var e := fs[n];
    assert LinkedAt(mac, fs, n);
    PayloadDomainSeparated(e.prevMac, e.fields);
    if Queried(es, InputOf(e)) {
      var k :| 0 <= k < |es| && InputOf(es[k]) == InputOf(e);
      MacInputInjective(es[k].prevMac, es[k].fields, e.prevMac, e.fields);
      assert LinkedAt(mac, es, k);
      assert es[k] == e;
      // Both predecessors carry the tip of fs[..n]; without a collision they sit at one place.
      AcceptedPrefix(mac, es, k);
      AcceptedPrefix(mac, fs, n);
      assert fs[..n] == es[..n];
      TipCommitsToLog(mac, es[..k], fs[..n]);
      CollisionWidens(mac, es, k, n);
      assert k == n;
    }
  }

  // ---------------------------------------------------------------- the store's append

  datatype AuditRecord = AuditRecord(
    op: Field, credentialId: Option<Field>, payloadHash: Option<Field>, actor: Field, alarm: Option<Field>)

  function Chained(mac: Mac, prev: Field, seqNo: i64, tsMs: i64, r: AuditRecord): AuditEntry {
    var f := MacFields(seqNo, tsMs, r.op, r.credentialId, r.payloadHash, r.actor, r.alarm.Some?, r.alarm);
    AuditEntry(f, prev, EntryMac(mac, prev, f))
  }

  /** Which of the three statements of an append the database fails. */
  datatype Faults = Faults(tip: bool, number: bool, insert: bool)

  predicate Faulty(db: Faults) {
    db.tip || db.number || db.insert
  }

  /** The `audit_log` table in `seq` order, as the store writes it. */
  class AuditLog {
    var rows: seq<AuditEntry>

    /** Rows are numbered 1, 2, 3, ... and form an accepted chain. */
    ghost predicate Valid(mac: Mac)
      reads this
    {
      Accepted(mac, rows) && forall i :: 0 <= i < |rows| ==> rows[i].fields.seqNo == i + 1
    }

    constructor ()
      ensures rows == []
    {
      rows := [];
    }

    /** One append, in the mutation's own transaction. A database failure or an exhausted counter
        fails the transaction: a chain whose tip cannot be read is never restarted. */
    method Append(mac: Mac, record: AuditRecord, tsMs: i64, db: Faults) returns (r: Result<AuditEntry, ()>)
      requires Valid(mac)
      modifies this
      ensures Valid(mac)
      ensures r.Ok? <==> !Faulty(db) && |old(rows)| < 0x7fff_ffff_ffff_ffff
      ensures r.Ok? ==> rows == old(rows) + [r.value]
      ensures r.Ok? ==> r.value == Chained(mac, Tip(old(rows)), |old(rows)| + 1, tsMs, record)
      ensures r.Err? ==> rows == old(rows)
    {
      hide Accepted, EntryMac;
      if db.tip {
        return Err(());
      }
      var prev := if rows == [] then GENESIS_MAC else rows[|rows| - 1].entryMac;
      var maxSeq := if rows == [] then 0 else rows[|rows| - 1].fields.seqNo;
      if db.number || maxSeq == 0x7fff_ffff_ffff_ffff {
        return Err(());
      }
      var f := MacFields(maxSeq + 1, tsMs, record.op, record.credentialId, record.payloadHash,
                         record.actor, record.alarm.Some?, record.alarm);
      var entryMac := ComputeEntryMac(mac, prev, f);
      if db.insert {
        return Err(());
      }
      var e := AuditEntry(f, prev, entryMac);
      AcceptedAppend(mac, rows, e);
      rows := rows + [e];
      r := Ok(e);
    }
  }
}
