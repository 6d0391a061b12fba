/** The leaky-bucket reservation schedule behind upload and download limits. Times are in nanoseconds. */
module RateSchedules {
  import opened Prelude

  const U128_MAX: nat := 0xFFFF_FFFF_FFFF_FFFF_FFFF_FFFF_FFFF_FFFF

  /** A reservation that took effect: a positive number of bytes on an enabled schedule. */
  datatype Request = Request(now: nat, bytes: nat)

  /** Time to serve `bytes` at `rate` bytes per second, rounded up. */
  function Service(rate: nat, bytes: nat): nat
    requires rate > 0
  {
    CeilDiv(Min(bytes * 1_000_000_000, U128_MAX), rate)
  }

  class RateSchedule {
    const rate: nat
    var nextAvailable: nat
    ghost var history: seq<Request>

    constructor (rate: nat)
      ensures this.rate == rate && nextAvailable == 0 && history == [] && Valid()
    {
      this.rate := rate;
      nextAvailable := 0;
      history := [];
    }

    ghost predicate Valid()
      reads this
    {
      (rate == 0 ==> history == []) && (rate > 0 ==> nextAvailable == Min(Available(rate, history), U128_MAX))
    }

    /**
     * How long the caller must wait. Short of saturation that is
     * until `StartTime`, and an idle schedule never delays.
     */
    method Reserve(now: nat, bytes: nat) returns (delay: nat)
      requires Valid() && now <= U128_MAX
      modifies this
      ensures Valid()
      ensures rate == 0 || bytes == 0 ==> delay == 0 && history == old(history) && nextAvailable == old(nextAvailable)
      ensures rate > 0 && bytes > 0 ==> history == old(history) + [Request(now, bytes)]
      ensures rate > 0 && bytes > 0 && StartTime(rate, history, |old(history)|) <= U128_MAX ==>
                delay == Min(StartTime(rate, history, |old(history)|) - now, U64_MAX)
      ensures rate > 0 && bytes > 0 ==> (delay == 0 <==> old(nextAvailable) <= now)
    {
      if rate == 0 || bytes == 0 {
        return 0;
      }
      var start := Max(nextAvailable, now);
      nextAvailable := Min(start + Service(rate, bytes), U128_MAX);
      delay := Min(start - now, U64_MAX);
      history := history + [Request(now, bytes)];
      assert history[..|history| - 1] == old(history);
    }
  }

  /** When the schedule becomes free after `reqs`, in unbounded arithmetic. */
  ghost function Available(rate: nat, reqs: seq<Request>): nat
    requires rate > 0
  {
    if reqs == [] then 0 else
      var n := |reqs| - 1;
      Max(Available(rate, reqs[..n]), reqs[n].now) + Service(rate, reqs[n].bytes)
  }

  /** When the `j`-th reservation may start. */
  ghost function StartTime(rate: nat, reqs: seq<Request>, j: nat): nat
    requires rate > 0 && j < |reqs|
  {
    Max(Available(rate, reqs[..j]), reqs[j].now)
  }

  /** Total service time of reservations `i..j`. */
  ghost function Busy(rate: nat, reqs: seq<Request>, i: nat, j: nat): nat
    requires rate > 0 && i <= j <= |reqs|
    decreases j
  {
    if i == j then 0 else Busy(rate, reqs, i, j - 1) + Service(rate, reqs[j - 1].bytes)
  }

  ghost function Bytes(reqs: seq<Request>, i: nat, j: nat): nat
    requires i <= j <= |reqs|
    decreases j
  {
    if i == j then 0 else Bytes(reqs, i, j - 1) + reqs[j - 1].bytes
  }

  lemma {:induction false} StartStep(rate: nat, reqs: seq<Request>, j: nat)
    requires rate > 0 && 0 < j < |reqs|
    ensures StartTime(rate, reqs, j) ==
            Max(StartTime(rate, reqs, j - 1) + Service(rate, reqs[j - 1].bytes), reqs[j].now)
  {
    assert reqs[..j][..j - 1] == reqs[..j - 1];
  }

  /** The start time is the maximum, over every earlier arrival, of that arrival plus the service queued since. */
  lemma {:induction false} StartIsMaximum(rate: nat, reqs: seq<Request>, j: nat) returns (since: nat)
    requires rate > 0 && j < |reqs|
    ensures forall i: nat | i <= j :: reqs[i].now + Busy(rate, reqs, i, j) <= StartTime(rate, reqs, j)
    ensures since <= j && StartTime(rate, reqs, j) == reqs[since].now + Busy(rate, reqs, since, j)
  {
    if j == 0 {
      since := 0;
    } else {
      StartStep(rate, reqs, j);
      since := StartIsMaximum(rate, reqs, j - 1);
      if StartTime(rate, reqs, j) == reqs[j].now {
        since := j;
      }
    }
  }

  lemma {:induction false} StartsSpaced(rate: nat, reqs: seq<Request>, i: nat, j: nat)
    requires rate > 0 && i <= j < |reqs|
    ensures StartTime(rate, reqs, i) + Busy(rate, reqs, i, j) <= StartTime(rate, reqs, j)
  {
    if i < j {
      StartsSpaced(rate, reqs, i, j - 1);
      StartStep(rate, reqs, j);
    }
  }

  lemma {:induction false} ServiceCovers(rate: nat, bytes: nat)
    requires rate > 0 && bytes <= U64_MAX
    ensures bytes * 1_000_000_000 <= rate * Service(rate, bytes)
  {
    var a := bytes * 1_000_000_000;
    var q := (a + rate - 1) / rate;
    assert a + rate - 1 == rate * q + (a + rate - 1) % rate;
  }

  lemma {:induction false} BusyCovers(rate: nat, reqs: seq<Request>, i: nat, j: nat)
    requires rate > 0 && i <= j <= |reqs| && forall k | 0 <= k < |reqs| :: reqs[k].bytes <= U64_MAX
    ensures Bytes(reqs, i, j) * 1_000_000_000 <= rate * Busy(rate, reqs, i, j)
  {
    if i < j {
      BusyCovers(rate, reqs, i, j - 1);
      ServiceCovers(rate, reqs[j - 1].bytes);
      var a, b := Busy(rate, reqs, i, j - 1), Service(rate, reqs[j - 1].bytes);
      assert rate * (a + b) == rate * a + rate * b;
    }
  }

  /** Between any two starts, no more bytes are started than the rate allows, the last reservation aside. */
  lemma {:induction false} RateRespected(rate: nat, reqs: seq<Request>, i: nat, j: nat)
    requires rate > 0 && i <= j < |reqs| && forall k | 0 <= k < |reqs| :: reqs[k].bytes <= U64_MAX
    ensures Bytes(reqs, i, j + 1) * 1_000_000_000 <=
            rate * (StartTime(rate, reqs, j) - StartTime(rate, reqs, i)) + reqs[j].bytes * 1_000_000_000
  {
    StartsSpaced(rate, reqs, i, j);
    BusyCovers(rate, reqs, i, j);
    ScaleMonotone(rate, Busy(rate, reqs, i, j), StartTime(rate, reqs, j) - StartTime(rate, reqs, i));
    assert Bytes(reqs, i, j + 1) == Bytes(reqs, i, j) + reqs[j].bytes;
    hide *;
  }
}
