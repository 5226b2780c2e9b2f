// Time-based codes as the relying party's helper page and the HTTP scenario runner compute them:
// RFC 6238 counters over 30-second windows, the dynamic truncation of RFC 4226, sections 5.3 and
// 5.4. The keyed hash is any function from messages to 20 bytes; clock readings are parameters.
module Totp {
  import opened Wrappers
  import opened Codes
  import opened Decimals
  import opened BitArithmetic

  type Octet = n: nat | n < 256

  type Digest = d: seq<Octet> | |d| == 20 witness seq(20, _ => 0)

  type Mac = seq<Octet> -> Digest

  const WINDOW: nat := 30

  // ---------------------------------------------------------------- truncation

  // digest[-1] & 0x0F
  function Offset(d: Digest): (o: nat)
    ensures o == d[19] % 16
  {
    MaskFour(d[19]);
    BitAnd(d[19], 0x0F)
  }

  // struct.unpack(">I", four bytes): the most significant byte first
  function Word(a: Octet, b: Octet, c: Octet, d: Octet): nat { ((a * 256 + b) * 256 + c) * 256 + d }

  // The four bytes from the offset as one number, and the mask on the whole of it.
  function Truncated(d: Digest): nat {
    var four := d[Offset(d)..Offset(d) + 4];
    BitAnd(Word(four[0], four[1], four[2], four[3]), 0x7FFF_FFFF)
  }

  // RFC 4226, section 5.4: byte by byte, only the first byte masked, the bytes shifted and or-ed.
  function DynamicTruncation(d: Digest): nat {
    var o := BitAnd(d[19], 0x0F);
    MaskFour(d[19]);
    BitOr(BitOr(BitOr(ShiftLeft(BitAnd(d[o], 0x7F), 24), ShiftLeft(d[o + 1], 16)), ShiftLeft(d[o + 2], 8)), d[o + 3])
  }

  // What it denotes: a 31-bit number, its bytes from the offset that the last four bits of the
  // digest give.
  function Denoted(d: Digest): nat {
    var o := d[19] % 16;
    var b0: nat, b1: nat, b2: nat, b3: nat := d[o], d[o + 1], d[o + 2], d[o + 3];
    (b0 % 128) * 0x100_0000 + b1 * 0x1_0000 + b2 * 0x100 + b3
  }

  lemma BytesApart(a: nat, b: Octet, c: Octet, d: Octet)
    requires a < 128
    ensures BitOr(BitOr(BitOr(ShiftLeft(a, 24), ShiftLeft(b, 16)), ShiftLeft(c, 8)), d)
         == a * 0x100_0000 + b * 0x1_0000 + c * 0x100 + d
  {
    Powers();
    hide BitOr, Pow2;
    var ab, abc := a * 256 + b, (a * 256 + b) * 256 + c;
    assert ShiftLeft(a, 24) == a * 0x100_0000 && ShiftLeft(b, 16) == b * 0x1_0000 && ShiftLeft(c, 8) == c * 256;
    BitOrApart(a, ShiftLeft(b, 16), 24);
    assert ShiftLeft(ab, 16) == ab * 0x1_0000 == ShiftLeft(a, 24) + ShiftLeft(b, 16);
    BitOrApart(ab, ShiftLeft(c, 8), 16);
    assert ShiftLeft(abc, 8) == abc * 256 == ShiftLeft(ab, 16) + ShiftLeft(c, 8);
    BitOrApart(abc, d, 8);
  }

  lemma Below31(high: nat, low: nat)
    requires low < 0x8000_0000
    ensures (high * 0x8000_0000 + low) % 0x8000_0000 == low
  {
  }

  lemma MaskedWord(a: Octet, b: Octet, c: Octet, d: Octet)
    ensures BitAnd(Word(a, b, c, d), 0x7FFF_FFFF) == (a % 128) * 0x100_0000 + b * 0x1_0000 + c * 0x100 + d
  {
    hide BitAnd;
    MaskThirtyOne(Word(a, b, c, d));
    Below31(a / 128, (a % 128) * 0x100_0000 + b * 0x1_0000 + c * 0x100 + d);
  }

  // Masking the whole word is the standard's masking of its first byte, for every digest, and both
  // are the number the four bytes denote.
  lemma TruncationIsStandard(d: Digest)
    ensures Truncated(d) == DynamicTruncation(d) == Denoted(d) < 0x8000_0000
  {
    hide BitAnd, BitOr, ShiftLeft, Word;
    var o := d[19] % 16;
    MaskFour(d[19]);
    MaskSeven(d[o]);
    MaskedWord(d[o], d[o + 1], d[o + 2], d[o + 3]);
    BytesApart(d[o] % 128, d[o + 1], d[o + 2], d[o + 3]);
  }

  // The code denotes the last six decimal digits of that number.
  lemma CodeDenotes(d: Digest)
    ensures |CodeOf(d)| == 6 && AllDigits(CodeOf(d)) && NatOf(CodeOf(d)) == Denoted(d) % 1_000_000
  {
    TruncationIsStandard(d);
    hide Truncated, DynamicTruncation, AllDigits, NatOf, Denoted;
  }

  function CodeOf(d: Digest): string { SixDigits(Truncated(d) % 1_000_000) }

  // The digest of the example in RFC 4226, section 5.4, and its code.
  const EXAMPLE: Digest := [0x1f, 0x86, 0x98, 0x69, 0x0e, 0x02, 0xca, 0x16, 0x61, 0x85,
                            0x50, 0xef, 0x7f, 0x19, 0xda, 0x8e, 0x94, 0x5b, 0x55, 0x5a]

  lemma ExampleCode()
    ensures Offset(EXAMPLE) == 10 && Truncated(EXAMPLE) == 0x50ef7f19 && NatOf(CodeOf(EXAMPLE)) == 872921
  {
    CodeDenotes(EXAMPLE);
    TruncationIsStandard(EXAMPLE);
    hide Truncated, DynamicTruncation, CodeOf, Offset, NatOf;
    assert EXAMPLE[19] % 16 == 10;
  }

  // ---------------------------------------------------------------- the moving factor

  // struct.pack(">Q", counter), which fails on a counter of more than 64 bits.
  function Packed(counter: nat): (r: Option<seq<Octet>>)
    ensures r.Some? <==> counter < 0x1_0000_0000_0000_0000
    ensures r.Some? ==> |r.value| == 8
  {
    if counter < 0x1_0000_0000_0000_0000 then Some(BigEndian(counter, 8)) else None
  }

  function BigEndian(n: nat, width: nat): (b: seq<Octet>)
    ensures |b| == width
  {
    if width == 0 then [] else BigEndian(n / 256, width - 1) + [n % 256]
  }

  function Value(b: seq<Octet>): nat {
    if b == [] then 0 else 256 * Value(b[..|b| - 1]) + b[|b| - 1]
  }

  function Pow256(width: nat): (p: nat)
    ensures p > 0
  {
    if width == 0 then 1 else 256 * Pow256(width - 1)
  }

  lemma {:induction false} BigEndianValue(n: nat, width: nat)
    requires n < Pow256(width)
    ensures Value(BigEndian(n, width)) == n
  {
    if width > 0 {
      BigEndianValue(n / 256, width - 1);
      var b := BigEndian(n, width);
      assert b[..|b| - 1] == BigEndian(n / 256, width - 1);
    }
  }

  // Eight bytes carry every counter that fits: two counters never share a message.
  lemma PackedValue(counter: nat)
    requires Packed(counter).Some?
    ensures Value(Packed(counter).value) == counter
  {
    assert Pow256(2) == 0x1_0000;
    assert Pow256(4) == 0x1_0000_0000;
    assert Pow256(6) == 0x1_0000_0000_0000;
    assert Pow256(8) == 0x1_0000_0000_0000_0000;
    BigEndianValue(counter, 8);
  }

  // The code of a counter under a key, None where packing fails.
  function Hotp(mac: Mac, counter: nat): Option<string> {
    var message := Packed(counter);
    if message.None? then None else Some(CodeOf(mac(message.value)))
  }

  // ---------------------------------------------------------------- the helper page

  function Second(t: real): nat
    requires t >= 0.0
  {
    t.Floor
  }

  function Counter(t: real): nat
    requires t >= 0.0
  {
    Second(t) / WINDOW
  }

  function Remaining(t: real): nat
    requires t >= 0.0
  {
    WINDOW - Second(t) % WINDOW
  }

  // current_totp of the helper page: the code and the seconds until rotation.
  function HelperTotp(mac: Mac, t: real): Option<(string, nat)>
    requires t >= 0.0
  {
    match Hotp(mac, Counter(t))
    case None => None
    case Some(code) => Some((code, Remaining(t)))
  }

  // A shown code denotes, modulo a million, the number in the digest of the eight bytes that carry
  // the index of the current 30-second window.
  predicate Shows(mac: Mac, window: nat, code: string, message: seq<Octet>) {
    |message| == 8 && Value(message) == window && |code| == 6 && AllDigits(code) &&
    NatOf(code) == Denoted(mac(message)) % 1_000_000
  }

  lemma HotpShows(mac: Mac, counter: nat) returns (message: seq<Octet>)
    ensures Hotp(mac, counter).Some? <==> counter < 0x1_0000_0000_0000_0000
    ensures Hotp(mac, counter).Some? ==> Shows(mac, counter, Hotp(mac, counter).value, message)
  {
    message := [];
    if Hotp(mac, counter).Some? {
      message := Packed(counter).value;
      PackedValue(counter);
      CodeDenotes(mac(message));
    }
  }

  // The helper page shows the code of the window that holds the moment, and how long it stays.
  lemma HelperShows(mac: Mac, t: real) returns (message: seq<Octet>)
    requires t >= 0.0 && HelperTotp(mac, t).Some?
    ensures var code, remaining := HelperTotp(mac, t).value.0, HelperTotp(mac, t).value.1;
            && Shows(mac, t.Floor / 30, code, message)
            && 1 <= remaining <= 30 && (t.Floor + remaining) % 30 == 0
  {
    message := HotpShows(mac, Counter(t));
    WindowExact(t, t);
  }

  // The counter, and with it the code, stays for exactly the remaining whole seconds it reports.
  lemma WindowExact(t: real, u: real)
    requires 0.0 <= t <= u
    ensures (30 * Counter(t)) as real <= t < (30 * Counter(t) + 30) as real
    ensures 1 <= Remaining(t) <= 30
    ensures Counter(u) == Counter(t) <==> u < (Second(t) + Remaining(t)) as real
    ensures Counter(t) <= Counter(u)
    ensures Counter((Second(t) + Remaining(t)) as real) == Counter(t) + 1
  {
    var s, v := Second(t), Second(u);
    assert s <= v;
    assert s + Remaining(t) == WINDOW * (s / WINDOW + 1);
    assert v < s + Remaining(t) <==> u < (s + Remaining(t)) as real;
    Quotients(s, v);
  }

  lemma Quotients(s: nat, v: nat)
    requires s <= v
    ensures s / WINDOW <= v / WINDOW
    ensures v / WINDOW == s / WINDOW <==> v < WINDOW * (s / WINDOW + 1)
    ensures (WINDOW * (s / WINDOW + 1)) / WINDOW == s / WINDOW + 1
  {
  }

  // ---------------------------------------------------------------- the scenario runner

  // t % 30 on a float, and the pause that ends a quarter of a second into the next window.
  function Phase(t: real): real
    requires t >= 0.0
  {
    t - (Counter(t) * WINDOW) as real
  }

  function Pause(t: real): real
    requires t >= 0.0
  {
    WINDOW as real - Phase(t) + 0.25
  }

  // The clock readings of one call: on entry and, when the runner pauses, before and after that.
  datatype Readings = Readings(entry: real, before: real, after: real)

  predicate Waits(last: Option<int>, r: Readings)
    requires r.entry >= 0.0
  {
    last.None? || Counter(r.entry) == last.value
  }

  // The clock never runs backwards and a pause lasts at least as long as asked for.
  predicate Plausible(last: Option<int>, clock: real, r: Readings) {
    0.0 <= clock <= r.entry && (Waits(last, r) ==> r.entry <= r.before && r.before + Pause(r.before) <= r.after)
  }

  // The moment whose code a call returns.
  function Moment(last: Option<int>, r: Readings): real
    requires r.entry >= 0.0
  {
    if Waits(last, r) then r.after else r.entry
  }

  // A pause ends in a later window than the call began in, at least a quarter of a second past the
  // next boundary.
  lemma PausePasses(entry: real, before: real, after: real)
    requires 0.0 <= entry <= before && before + Pause(before) <= after
    ensures Pause(before) > 0.0
    ensures after >= (WINDOW * (Counter(before) + 1)) as real + 0.25
    ensures Counter(entry) < Counter(after)
  {
    assert Second(before) as real <= before < (Second(before) + 1) as real;
    assert Second(before) == WINDOW * Counter(before) + Second(before) % WINDOW;
    WindowExact(entry, before);
    WindowExact(before, after);
  }

  lemma MomentAdvances(last: Option<int>, clock: real, r: Readings)
    requires Plausible(last, clock, r)
    requires last.Some? ==> last.value <= Counter(clock)
    ensures clock <= Moment(last, r)
    ensures last.Some? ==> last.value < Counter(Moment(last, r))
    ensures last.None? ==> Counter(clock) < Counter(Moment(last, r))
    ensures Waits(last, r) ==> Moment(last, r) >= (WINDOW * (Counter(r.before) + 1)) as real + 0.25
  {
    WindowExact(clock, r.entry);
    if Waits(last, r) {
      PausePasses(r.entry, r.before, r.after);
    }
  }

  class Runner {
    var lastCounter: Option<int>

    constructor ()
      ensures lastCounter == None
    {
      lastCounter := None;
    }

    // `clock` is any earlier reading, not before the moment of the last call.
    method CurrentTotp(mac: Mac, ghost clock: real, r: Readings) returns (code: Option<string>)
      requires Plausible(lastCounter, clock, r)
      requires lastCounter.Some? ==> lastCounter.value <= Counter(clock)
      modifies this
      ensures lastCounter == Some(Counter(Moment(old(lastCounter), r)))
      ensures code == Hotp(mac, Counter(Moment(old(lastCounter), r)))
      ensures code.Some? ==> exists message :: Shows(mac, Moment(old(lastCounter), r).Floor / 30, code.value, message)
      ensures old(lastCounter).Some? ==> old(lastCounter).value < lastCounter.value
      ensures old(lastCounter).None? ==> Counter(clock) < lastCounter.value
    {
      MomentAdvances(lastCounter, clock, r);
      var counter := Counter(r.entry);
      if lastCounter.None? || counter == lastCounter.value {
        counter := Counter(r.after);
      }
      lastCounter := Some(counter);
      code := Hotp(mac, counter);
      ghost var message := HotpShows(mac, counter);
    }
  }

  // ---------------------------------------------------------------- any number of calls

  predicate Monotone(last: Option<int>, clock: real, calls: seq<Readings>)
    decreases |calls|
  {
    calls == [] || (Plausible(last, clock, calls[0]) &&
                    Monotone(Some(Counter(Moment(last, calls[0]))), Moment(last, calls[0]), calls[1..]))
  }

  function Counters(last: Option<int>, clock: real, calls: seq<Readings>): (cs: seq<nat>)
    requires Monotone(last, clock, calls)
    ensures |cs| == |calls|
    decreases |calls|
  {
    if calls == [] then [] else
      var at := Moment(last, calls[0]);
      [Counter(at)] + Counters(Some(Counter(at)), at, calls[1..])
  }

  // Whatever the calls, no counter is used twice: each call's counter exceeds all earlier ones,
  // and a fresh runner's counters all exceed the counter of the window it started in.
  lemma {:induction false} CountersIncrease(last: Option<int>, clock: real, calls: seq<Readings>, i: nat)
    requires Monotone(last, clock, calls) && i < |calls|
    requires last.Some? ==> last.value <= Counter(clock)
    ensures clock >= 0.0
    ensures (if last.Some? then last.value else Counter(clock)) < Counters(last, clock, calls)[i]
    ensures forall j :: 0 <= j < i ==> Counters(last, clock, calls)[j] < Counters(last, clock, calls)[i]
    decreases |calls|
  {
    MomentAdvances(last, clock, calls[0]);
    var at := Moment(last, calls[0]);
    var rest := Counters(Some(Counter(at)), at, calls[1..]);
    assert Counters(last, clock, calls) == [Counter(at)] + rest;
    if i > 0 {
      CountersIncrease(Some(Counter(at)), at, calls[1..], i - 1);
    }
  }
}
