/** The in-memory chain used in sandbox mode, and why it is a chain in the sense of `Protocol`. */
module TonAdapter {
  import opened Basics
  import opened Decimal
  import opened Protocol

  datatype Record = Record(txHash: string, to: string, amount: int, confirmed: bool, networkFee: int)

  datatype Answer = Answer(outcome: SendOutcome, txHash: Option<string>)

  datatype TransferStatus =
    | NotFound
    | Pending(txHash: string)
    | Confirmed(txHash: string, amount: int, destination: string, networkFee: int, confirmations: nat)

  datatype Adapter = Adapter(sent: map<string, Record>, nextOutcome: SendOutcome, autoConfirm: bool, networkFee: int)

  type Byte = n: int | 0 <= n < 256

  /** UTF-8, section 3 of RFC 3629. */
  function Utf8(c: char): seq<Byte> {
    var n := c as int;
    if n < 0x80 then [n]
    else if n < 0x800 then [0xC0 + n / 0x40, 0x80 + n % 0x40]
    else if n < 0x10000 then [0xE0 + n / 0x1000, 0x80 + n / 0x40 % 0x40, 0x80 + n % 0x40]
    else [0xF0 + n / 0x40000, 0x80 + n / 0x1000 % 0x40, 0x80 + n / 0x40 % 0x40, 0x80 + n % 0x40]
  }

  function Bytes(s: string): seq<Byte> {
    if s == [] then [] else Bytes(s[..|s| - 1]) + Utf8(s[|s| - 1])
  }

  const HEX_DIGITS := "0123456789abcdef"

  function Hex(bs: seq<Byte>): (h: string)
    ensures |h| == 2 * |bs|
  {
    seq(2 * |bs|, i requires 0 <= i < 2 * |bs| => HEX_DIGITS[if i % 2 == 0 then bs[i / 2] / 16 else bs[i / 2] % 16])
  }

  function Front<T>(s: seq<T>, n: nat): seq<T> { if |s| <= n then s else s[..n] }

  function TxHashOf(key: string): string { "tx_" + Front(Hex(Bytes(key)), 48) }

  /** A key sent before is accepted again without a second transfer; a scripted outcome is used once. */
  function Send(a: Adapter, key: string, to: string, amount: int): (Adapter, Answer) {
    if key in a.sent then (a, Answer(ACCEPTED, Some(a.sent[key].txHash)))
    else
      var next := a.(nextOutcome := ACCEPTED);
      if a.nextOutcome == REJECTED then (next, Answer(REJECTED, None))
      else (next.(sent := a.sent[key := Record(TxHashOf(key), to, amount, a.autoConfirm, a.networkFee)]),
            Answer(a.nextOutcome, if a.nextOutcome == ACCEPTED then Some(TxHashOf(key)) else None))
  }

  function Status(a: Adapter, key: string): TransferStatus {
    if key !in a.sent then NotFound
    else if !a.sent[key].confirmed then Pending(a.sent[key].txHash)
    else Confirmed(a.sent[key].txHash, a.sent[key].amount, a.sent[key].to, a.sent[key].networkFee, 10)
  }

  function ConfirmAll(a: Adapter): Adapter {
    a.(sent := map k | k in a.sent :: a.sent[k].(confirmed := true))
  }

  // ---------------------------------------------------------------------------
  // Refinement
  // ---------------------------------------------------------------------------

  function KeyOf(payout: nat): string { "payout:" + ToDecimal(payout) }

  lemma KeysDiffer(p: nat, q: nat)
    requires KeyOf(p) == KeyOf(q)
    ensures p == q
  {
    assert KeyOf(p)[7..] == ToDecimal(p) && KeyOf(q)[7..] == ToDecimal(q);
    ToDecimalInjective(p, q);
  }

  /** The record of a live transfer. */
  predicate Records(a: Adapter, t: Transfer) {
    && KeyOf(t.payout) in a.sent
    && var r := a.sent[KeyOf(t.payout)];
       r.txHash == TxHashOf(KeyOf(t.payout)) && r.to == t.to && r.amount == t.amount && (r.confirmed <==> t.fate == Landed)
  }

  /** The map holds exactly the live transfers of the chain. */
  ghost predicate Represents(a: Adapter, chain: seq<Transfer>) {
    && (forall p: nat :: KeyOf(p) in a.sent ==> HasLive(chain, p))
    && (forall i :: 0 <= i < |chain| && Live(chain[i]) ==> Records(a, chain[i]))
  }

  /** The chain after the adapter took the message: the send itself, and its landing when confirmation is immediate. */
  ghost function AfterAdapterSend(w: World, a: Adapter, p: nat, outcome: SendOutcome): World {
    var sent := AfterSend(w, p, outcome, outcome != REJECTED);
    if |sent.chain| > |w.chain| && a.autoConfirm then AfterFate(sent, |w.chain|, Landed) else sent
  }

  lemma AppendLive(chain: seq<Transfer>, t: Transfer)
    requires Live(t)
    ensures forall p :: HasLive(chain + [t], p) <==> HasLive(chain, p) || p == t.payout
  {
    var next := chain + [t];
    assert next[|chain|] == t;
    forall p ensures HasLive(next, p) <==> HasLive(chain, p) || p == t.payout {
      if HasLive(chain, p) {
        var i :| 0 <= i < |chain| && chain[i].payout == p && Live(chain[i]);
        assert next[i] == chain[i];
      }
    }
  }

  /** Every send of the adapter is a send of the protocol, with the same answer. */
  lemma SendRefines(w: World, a: Adapter, p: nat)
    requires Represents(a, w.chain) && StageOf(w, p).Sending?
    ensures var s := StageOf(w, p);
            var (next, answer) := Send(a, KeyOf(p), s.destination, s.amount);
            && Represents(next, AfterAdapterSend(w, a, p, answer.outcome).chain)
            && StageOf(AfterAdapterSend(w, a, p, answer.outcome), p) == Stage.Sent(answer.outcome)
            && (answer.txHash == if answer.outcome == ACCEPTED then Some(TxHashOf(KeyOf(p))) else None)
  {
    var s := StageOf(w, p);
    var (next, answer) := Send(a, KeyOf(p), s.destination, s.amount);
    var outcome := answer.outcome;
    if HasLive(w.chain, p) {
      var i :| 0 <= i < |w.chain| && w.chain[i].payout == p && Live(w.chain[i]);
      assert Records(a, w.chain[i]);
    } else if outcome != REJECTED {
      var t := Transfer(p, s.destination, s.amount, if a.autoConfirm then Landed else InFlight);
      var after := AfterAdapterSend(w, a, p, outcome);
      assert after.chain == w.chain + [t];
      AppendLive(w.chain, t);
      AddedIsRecorded(w.chain, a, next, t);
    }
  }

  lemma AddedIsRecorded(chain: seq<Transfer>, a: Adapter, next: Adapter, t: Transfer)
    requires Represents(a, chain) && Live(t) && !HasLive(chain, t.payout)
    requires KeyOf(t.payout) in next.sent && next.sent == a.sent[KeyOf(t.payout) := next.sent[KeyOf(t.payout)]] && Records(next, t)
    ensures Represents(next, chain + [t])
  {
    AppendLive(chain, t);
    forall q: nat | KeyOf(q) in next.sent ensures HasLive(chain + [t], q) {
      if KeyOf(q) == KeyOf(t.payout) { KeysDiffer(q, t.payout); }
    }
    forall i | 0 <= i < |chain| && Live(chain[i]) ensures Records(next, chain[i]) {
      assert Records(a, chain[i]);
      if KeyOf(chain[i].payout) == KeyOf(t.payout) { KeysDiffer(chain[i].payout, t.payout); }
    }
  }

  /** What the adapter reports is what the protocol lets a worker observe. */
  lemma StatusRefines(w: World, a: Adapter, p: nat)
    requires Represents(a, w.chain)
    ensures Status(a, KeyOf(p)).NotFound? <==> !HasLive(w.chain, p)
    ensures Status(a, KeyOf(p)).Confirmed? ==>
              HasLanded(w.chain, p, Status(a, KeyOf(p)).destination, Status(a, KeyOf(p)).amount)
    ensures !Status(a, KeyOf(p)).NotFound? ==> Status(a, KeyOf(p)).txHash == TxHashOf(KeyOf(p))
  {
    if i :| 0 <= i < |w.chain| && w.chain[i].payout == p && Live(w.chain[i]) {
      assert Records(a, w.chain[i]);
      assert w.chain[i].fate == Landed ==>
        w.chain[i] == Transfer(p, a.sent[KeyOf(p)].to, a.sent[KeyOf(p)].amount, Landed);
    }
  }

  lemma HexPrefix(bs: seq<Byte>, n: nat)
    ensures Front(Hex(bs), 2 * n) == Hex(Front(bs, n))
  {
    var h, g := Front(Hex(bs), 2 * n), Hex(Front(bs, n));
    forall i | 0 <= i < |g| ensures h[i] == g[i] {
      assert Front(bs, n)[i / 2] == bs[i / 2];
    }
  }

  lemma HexInjective(a: seq<Byte>, b: seq<Byte>)
    requires Hex(a) == Hex(b)
    ensures a == b
  {
    assert |a| == |b|;
    forall i | 0 <= i < |a| ensures a[i] == b[i] {
      assert Hex(a)[2 * i] == Hex(b)[2 * i] && Hex(a)[2 * i + 1] == Hex(b)[2 * i + 1];
      HexDigitInjective(a[i] / 16, b[i] / 16);
      HexDigitInjective(a[i] % 16, b[i] % 16);
    }
  }

  lemma HexDigitInjective(x: nat, y: nat)
    requires x < 16 && y < 16 && HEX_DIGITS[x] == HEX_DIGITS[y]
    ensures x == y
  {
  }

  /** The hash is cut short: two keys have one hash exactly when their first 24 bytes agree. */
  lemma HashesMeetExactlyOnSharedPrefix(k: string, l: string)
    ensures TxHashOf(k) == TxHashOf(l) <==> Front(Bytes(k), 24) == Front(Bytes(l), 24)
  {
    HexPrefix(Bytes(k), 24);
    HexPrefix(Bytes(l), 24);
    if TxHashOf(k) == TxHashOf(l) {
      assert TxHashOf(k)[3..] == Hex(Front(Bytes(k), 24)) && TxHashOf(l)[3..] == Hex(Front(Bytes(l), 24));
      HexInjective(Front(Bytes(k), 24), Front(Bytes(l), 24));
    }
  }

  function LandAll(chain: seq<Transfer>): (r: seq<Transfer>)
    ensures |r| == |chain|
    ensures forall i :: 0 <= i < |chain| ==> r[i] == if chain[i].fate == InFlight then chain[i].(fate := Landed) else chain[i]
  {
    seq(|chain|, i requires 0 <= i < |chain| => if chain[i].fate == InFlight then chain[i].(fate := Landed) else chain[i])
  }

  lemma ConfirmAllRefines(chain: seq<Transfer>, a: Adapter)
    requires Represents(a, chain)
    ensures Represents(ConfirmAll(a), LandAll(chain))
  {
    var next := LandAll(chain);
    forall p: nat | KeyOf(p) in ConfirmAll(a).sent ensures HasLive(next, p) {
      var i :| 0 <= i < |chain| && chain[i].payout == p && Live(chain[i]);
      assert next[i].payout == p && Live(next[i]);
    }
    forall i | 0 <= i < |next| && Live(next[i]) ensures Records(ConfirmAll(a), next[i]) {
      assert Records(a, chain[i]);
    }
  }

  // ---------------------------------------------------------------------------
  // One call, exactly
  // ---------------------------------------------------------------------------

  /** A known key gets its first answer; a new one gets the scripted outcome, once, and a record unless it is rejected. */
  lemma SendAnswers(a: Adapter, key: string, to: string, amount: int)
    ensures var (next, answer) := Send(a, key, to, amount);
            if key in a.sent then next == a && answer == Answer(ACCEPTED, Some(a.sent[key].txHash))
            else
              && next.nextOutcome == ACCEPTED && next.autoConfirm == a.autoConfirm && next.networkFee == a.networkFee
              && answer == Answer(a.nextOutcome, if a.nextOutcome.ACCEPTED? then Some(TxHashOf(key)) else None)
              && next.sent == (if a.nextOutcome.REJECTED? then a.sent
                               else a.sent[key := Record(TxHashOf(key), to, amount, a.autoConfirm, a.networkFee)])
  {
  }

  /** The status of a key is its record's; confirmed ones count ten confirmations, and confirming all confirms each record. */
  lemma StatusAnswers(a: Adapter, key: string)
    ensures key !in a.sent ==> Status(a, key) == NotFound && key !in ConfirmAll(a).sent
    ensures key in a.sent ==>
      var r := a.sent[key];
      && Status(a, key) == (if r.confirmed then Confirmed(r.txHash, r.amount, r.to, r.networkFee, 10) else Pending(r.txHash))
      && key in ConfirmAll(a).sent && ConfirmAll(a).sent[key] == Record(r.txHash, r.to, r.amount, true, r.networkFee)
    ensures ConfirmAll(a) == a.(sent := ConfirmAll(a).sent)
  {
  }

  /** The hash spells the first 24 bytes of the key in hexadecimal. */
  lemma HashSpellsKey(key: string)
    ensures TxHashOf(key) == "tx_" + Hex(Front(Bytes(key), 24))
  {
    HexPrefix(Bytes(key), 24);
  }

  /** Two digits a byte, the high one first. */
  lemma HexDigitsAt(bs: seq<Byte>, i: nat)
    requires i < |bs|
    ensures Hex(bs)[2 * i] == "0123456789abcdef"[bs[i] / 16] && Hex(bs)[2 * i + 1] == "0123456789abcdef"[bs[i] % 16]
  {
    assert (2 * i) / 2 == i && (2 * i + 1) / 2 == i;
  }

  /** The low six bits of a continuation byte. */
  function Bits6(b: int): int { b - 0x80 }

  predicate Continues(b: int) { 0x80 <= b < 0xC0 }

  lemma SixBits(n: nat)
    ensures n == n / 0x40 * 0x40 + n % 0x40 && 0 <= n % 0x40 < 0x40
    ensures n == n / 0x1000 * 0x1000 + n / 0x40 % 0x40 * 0x40 + n % 0x40 && 0 <= n / 0x40 % 0x40 < 0x40
    ensures n == n / 0x40000 * 0x40000 + n / 0x1000 % 0x40 * 0x1000 + n / 0x40 % 0x40 * 0x40 + n % 0x40 && 0 <= n / 0x1000 % 0x40 < 0x40
  {
    assert n / 0x1000 == n / 0x40 / 0x40 && n / 0x40000 == n / 0x40 / 0x40 / 0x40;
  }

  /** Each character is written in the shortest form, and its code can be read back. */
  lemma Utf8IsRead(c: char)
    ensures var bs, n := Utf8(c), c as int;
            if n < 0x80 then |bs| == 1 && n == bs[0]
            else if n < 0x800 then
              |bs| == 2 && Continues(bs[1]) && 0xC0 <= bs[0] < 0xE0 && n == (bs[0] as int - 0xC0) * 0x40 + Bits6(bs[1])
            else if n < 0x10000 then
              |bs| == 3 && Continues(bs[1]) && Continues(bs[2]) && 0xE0 <= bs[0] < 0xF0
              && n == (bs[0] as int - 0xE0) * 0x1000 + Bits6(bs[1]) * 0x40 + Bits6(bs[2])
            else
              |bs| == 4 && Continues(bs[1]) && Continues(bs[2]) && Continues(bs[3]) && 0xF0 <= bs[0] < 0xF8
              && n == (bs[0] as int - 0xF0) * 0x40000 + Bits6(bs[1]) * 0x1000 + Bits6(bs[2]) * 0x40 + Bits6(bs[3])
  {
    SixBits(c as int);
  }
}
