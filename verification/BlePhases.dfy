/** Phase durations of one BLE action (optimizer/ble_micro_refinement.py `_phase_durations`). */
module BlePhases {
  import opened Numbers

  /** The three duration profiles: subscriptions, connects, everything else. */
  datatype Profile = SubscribeProfile | ConnectProfile | PlainProfile

  datatype Durations = Durations(adv: int, connect: int, xfer: int, settle: int) {
    function Total(): int {
      adv + connect + xfer + settle
    }
  }

  const ADV_MIN := 30
  const CONNECT_MIN := 40
  const XFER_MIN := 120
  const SETTLE_MIN := 30

  function Percent(total: int, percent: int): int {
    RoundHalfEven(total * percent, 100)
  }

  /** The initial split before any phase is shortened; the transfer gets what is left. */
  function Targets(total: int, profile: Profile, advTimeout: int, connectTimeout: int): Durations {
    var (adv, connect, settle) := match profile {
      case SubscribeProfile => (Min(advTimeout, Max(ADV_MIN, Percent(total, 8))), Min(connectTimeout, Max(70, Percent(total, 24))), Max(SETTLE_MIN, Percent(total, 12)))
      case ConnectProfile => (Min(advTimeout, Max(ADV_MIN, Percent(total, 10))), Min(connectTimeout, Max(75, Percent(total, 26))), Max(SETTLE_MIN, Percent(total, 10)))
      case PlainProfile => (Min(advTimeout, Max(ADV_MIN, Percent(total, 12))), Min(connectTimeout, Max(CONNECT_MIN, Percent(total, 18))), Max(SETTLE_MIN, Percent(total, 10)))
    };
    Durations(adv, connect, total - adv - connect - settle, settle)
  }

  /** What may be taken from a phase of length `value` without going below `minimum`, at most `wanted`. */
  ghost function Cut(wanted: int, value: int, minimum: int): int {
    Min(wanted, Max(0, value - minimum))
  }

  ghost function FromConnect(d: Durations): Durations {
    if d.xfer >= XFER_MIN then d
    else
      var cut := Cut(XFER_MIN - d.xfer, d.connect, CONNECT_MIN);
      d.(connect := d.connect - cut, xfer := d.xfer + cut)
  }

  ghost function FromAdv(d: Durations): Durations {
    if d.xfer >= XFER_MIN then d
    else
      var cut := Cut(XFER_MIN - d.xfer, d.adv, ADV_MIN);
      d.(adv := d.adv - cut, xfer := d.xfer + cut)
  }

  ghost function FromSettle(d: Durations): Durations {
    if d.xfer >= XFER_MIN then d
    else
      var cut := Cut(XFER_MIN - d.xfer, d.settle, SETTLE_MIN);
      d.(settle := d.settle - cut, xfer := d.xfer + cut)
  }

  /** A transfer that is too short borrows from connect, then advertisement, then settle. */
  ghost function Borrow(d: Durations): Durations {
    FromSettle(FromAdv(FromConnect(d)))
  }

  /** The durations: if borrowing did not suffice, the transfer keeps its minimum and settle pays. */
  ghost function PhaseDurations(total: int, profile: Profile, advTimeout: int, connectTimeout: int): Durations {
    Settle(total, Borrow(Targets(total, profile, advTimeout, connectTimeout)))
  }

  ghost function Settle(total: int, d: Durations): Durations {
    if d.xfer >= XFER_MIN then d
    else Durations(d.adv, d.connect, XFER_MIN, Max(1, total - d.adv - d.connect - XFER_MIN))
  }

  datatype Stage = XferStage | ConnectStage | AdvStage | SettleStage

  /** The four running variables of the source, shortened step by step. */
  method ComputePhaseDurations(total: int, profile: Profile, advTimeout: int, connectTimeout: int) returns (d: Durations)
    ensures d == PhaseDurations(total, profile, advTimeout, connectTimeout)
  {
    var targets := Targets(total, profile, advTimeout, connectTimeout);
    d := Shorten(total, targets);
  }

  /** One round of the shortening loop. */
  ghost function Round(stage: Stage, d: Durations): Durations {
    match stage
    case XferStage => d
    case ConnectStage => FromConnect(d)
    case AdvStage => FromAdv(d)
    case SettleStage => FromSettle(d)
  }

  const STAGES := [XferStage, ConnectStage, AdvStage, SettleStage]

  /** What is left to do after the first `i` rounds. */
  ghost function Remaining(i: nat, d: Durations): Durations
    requires i <= 4
    decreases 4 - i
  {
    if i == 4 then d else Remaining(i + 1, Round(STAGES[i], d))
  }

  lemma RemainingNothing(i: nat, d: Durations)
    requires i <= 4 && d.xfer >= XFER_MIN
    ensures Remaining(i, d) == d
    decreases 4 - i
  {
    if i < 4 { RemainingNothing(i + 1, d); }
  }

  lemma RemainingAll(d: Durations)
    ensures Remaining(0, d) == Borrow(d)
  {
    var d1 := FromConnect(d);
    var d2 := FromAdv(d1);
    assert Remaining(1, d) == Remaining(2, d1) == Remaining(3, d2) == Remaining(4, FromSettle(d2));
  }

  /** A failed borrowing leaves nothing to cut anywhere. */
  lemma BorrowExhausts(d: Durations)
    requires Borrow(d).xfer < XFER_MIN
    ensures Borrow(d).adv <= ADV_MIN && Borrow(d).connect <= CONNECT_MIN && Borrow(d).settle <= SETTLE_MIN
  {
  }

  lemma BorrowConserves(d: Durations)
    ensures Borrow(d).Total() == d.Total()
    ensures d.settle >= SETTLE_MIN ==> Borrow(d).settle >= SETTLE_MIN
  {
  }

  method Shorten(total: int, targets: Durations) returns (d: Durations)
    requires targets.Total() == total && targets.settle >= SETTLE_MIN
    ensures d == Settle(total, Borrow(targets))
  {
    var adv, connect, xfer, settle := targets.adv, targets.connect, targets.xfer, targets.settle;
    var i := 0;
    RemainingAll(targets);
    while i < 4 && xfer < XFER_MIN
      invariant 0 <= i <= 4
      invariant Remaining(i, Durations(adv, connect, xfer, settle)) == Borrow(targets)
      decreases 4 - i
    {
      var deficit := XFER_MIN - xfer;
      match STAGES[i] {
        case XferStage =>
        case ConnectStage =>
          var reduction := Min(deficit, Max(0, connect - CONNECT_MIN));
          connect, xfer := connect - reduction, xfer + reduction;
        case AdvStage =>
          var reduction := Min(deficit, Max(0, adv - ADV_MIN));
          adv, xfer := adv - reduction, xfer + reduction;
        case SettleStage =>
          var reduction := Min(deficit, Max(0, settle - SETTLE_MIN));
          settle, xfer := settle - reduction, xfer + reduction;
      }
      i := i + 1;
    }
    if xfer >= XFER_MIN { RemainingNothing(i, Durations(adv, connect, xfer, settle)); }
    d := PayOverflow(total, targets, Durations(adv, connect, xfer, settle));
  }

  /** The last corrections. Nothing is left to cut but settle, and the sum already matches whenever the
      transfer got its minimum. */
  method PayOverflow(total: int, ghost targets: Durations, borrowed: Durations) returns (d: Durations)
    requires targets.Total() == total && targets.settle >= SETTLE_MIN && borrowed == Borrow(targets)
    ensures d == Settle(total, borrowed)
  {
    BorrowConserves(targets);
    if borrowed.xfer < XFER_MIN { BorrowExhausts(targets); }
    var adv, connect, xfer, settle := borrowed.adv, borrowed.connect, borrowed.xfer, borrowed.settle;
    if xfer < XFER_MIN {
      xfer := XFER_MIN;
      var overflow := adv + connect + settle + xfer - total;
      if overflow > 0 {
        var settleCut := Min(overflow, Max(0, settle - SETTLE_MIN));
        settle, overflow := settle - settleCut, overflow - settleCut;
      }
      if overflow > 0 {
        var connectCut := Min(overflow, Max(0, connect - CONNECT_MIN));
        connect, overflow := connect - connectCut, overflow - connectCut;
      }
      if overflow > 0 {
        var advCut := Min(overflow, Max(0, adv - ADV_MIN));
        adv, overflow := adv - advCut, overflow - advCut;
      }
      if overflow > 0 {
        settle := Max(1, settle - overflow);
      }
    }
    var now := adv + connect + xfer + settle;
    if now != total {
      settle := settle + (total - now);
    }
    settle := Max(1, settle);
    d := Durations(adv, connect, xfer, settle);
  }

  /** For any total: phases stay within their timeouts, the transfer keeps its minimum, settle stays positive. */
  lemma DurationBounds(total: int, profile: Profile, advTimeout: int, connectTimeout: int)
    requires advTimeout >= 0 && connectTimeout >= 0
    ensures var d := PhaseDurations(total, profile, advTimeout, connectTimeout);
            0 <= d.adv <= advTimeout && 0 <= d.connect <= connectTimeout && d.xfer >= XFER_MIN && d.settle >= 1
  {
    var targets := Targets(total, profile, advTimeout, connectTimeout);
    assert 0 <= targets.adv <= advTimeout && 0 <= targets.connect <= connectTimeout;
    BorrowConserves(targets);
    BorrowShrinks(targets);
  }

  lemma BorrowShrinks(d: Durations)
    ensures Borrow(d).adv <= d.adv && Borrow(d).connect <= d.connect
    ensures Borrow(d).adv >= Min(d.adv, ADV_MIN) && Borrow(d).connect >= Min(d.connect, CONNECT_MIN)
  {
  }

  /** Whatever the timeouts, the transfer keeps its minimum and settle stays positive. */
  lemma TransferAlways(total: int, profile: Profile, advTimeout: int, connectTimeout: int)
    ensures PhaseDurations(total, profile, advTimeout, connectTimeout).xfer >= XFER_MIN
    ensures PhaseDurations(total, profile, advTimeout, connectTimeout).settle >= 1
  {
    var targets := Targets(total, profile, advTimeout, connectTimeout);
    assert targets.settle >= SETTLE_MIN;
    BorrowConserves(targets);
  }

  /** From 220 ms up, the sum of the four minima, the durations add up exactly and settle keeps its minimum. */
  lemma DurationsAddUp(total: int, profile: Profile, advTimeout: int, connectTimeout: int)
    requires total >= 220
    ensures var d := PhaseDurations(total, profile, advTimeout, connectTimeout);
            d.Total() == total && d.xfer >= XFER_MIN && d.settle >= SETTLE_MIN
  {
    var targets := Targets(total, profile, advTimeout, connectTimeout);
    BorrowConserves(targets);
    if Borrow(targets).xfer < XFER_MIN { BorrowExhausts(targets); }
  }

  /** With a timeout of at least 30 ms the advertisement phase lasts at least 30 ms. */
  lemma AdvAtLeastMinimum(total: int, profile: Profile, advTimeout: int, connectTimeout: int)
    requires advTimeout >= ADV_MIN
    ensures ADV_MIN <= PhaseDurations(total, profile, advTimeout, connectTimeout).adv <= advTimeout
  {
    BorrowShrinks(Targets(total, profile, advTimeout, connectTimeout));
  }
}
