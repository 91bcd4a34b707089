/** CliWriter.set_poe (cli_write.py) against a switch whose Status column lags a re-enable by some
    number of reads (virtual/cli_fastpath.py `_poe_status_text`). The clock moves only while sleeping. */
module CliPoe {
  import opened Models

  /** One PSE port as `show poe port info all` shows it. */
  class PsePort {
    /** How many reads still say Disabled after the port is switched back on. */
    const enableLag: nat
    var admin: bool
    var lag: nat
    var polls: nat
    var now: real

    constructor (enableLag: nat, admin: bool, lag: nat, now: real)
      ensures this.enableLag == enableLag && this.admin == admin && this.lag == lag && polls == 0 && this.now == now
    {
      this.enableLag, this.admin, this.lag, this.polls, this.now := enableLag, admin, lag, 0, now;
    }

    /** Whether the Status column reads as admin-enabled; reading uses up one read of the lag. */
    method ReadsEnabled() returns (enabled: bool)
      modifies this`lag, this`polls
      ensures enabled == (old(lag) == 0 && admin)
      ensures lag == old(lag) - (if old(lag) > 0 then 1 else 0) && polls == old(polls) + 1
    {
      polls := polls + 1;
      if lag > 0 {
        lag := lag - 1;
        return false;
      }
      return admin;
    }

    /** `poe` and `no poe`. */
    method SetAdmin(on: bool)
      modifies this`admin, this`lag
      ensures admin == on && lag == if on && !old(admin) then enableLag else old(lag)
    {
      if on && !admin {
        lag := enableLag;
      }
      admin := on;
    }

    method Sleep(d: real)
      modifies this`now
      ensures now == old(now) + d
    {
      now := now + d;
    }
  }

  // ----- how many reads fit a deadline -----

  /** The reads after which the deadline is past: ceil(timeout / poll) + 1, at least one. */
  function ReadLimit(timeout: real, poll: real): nat
    requires poll > 0.0
  {
    var naps := -((-timeout / poll).Floor);
    (if naps > 0 then naps else 0) + 1
  }

  /** The time `k` naps take. */
  function Naps(k: int, poll: real): real { k as real * poll }

  lemma NapsMonotone(j: int, k: int, poll: real)
    requires poll > 0.0 && j <= k
    ensures Naps(j, poll) <= Naps(k, poll)
  {
    Scale(j as real, k as real, poll);
  }

  /** The read limit is the first read made at or past the deadline. */
  lemma ReadLimitIsFirstPast(timeout: real, poll: real)
    requires poll > 0.0
    ensures var n := ReadLimit(timeout, poll);
            Naps(n - 1, poll) >= timeout && (n > 1 ==> Naps(n - 2, poll) < timeout)
  {
    var naps := -((-timeout / poll).Floor);
    var q := timeout / poll;
    assert q * poll == timeout;
    assert -timeout / poll == -q;
    assert (naps - 1) as real < q <= naps as real;
    Scale(q, naps as real, poll);
    assert Naps(naps, poll) >= timeout;
    if naps > 0 {
      NapsBelow(naps - 1, q, poll);
    } else {
      NapsMonotone(naps, 0, poll);
    }
  }

  lemma Scale(a: real, b: real, c: real)
    requires c > 0.0 && a <= b
    ensures a * c <= b * c
  {
  }

  lemma NapsBelow(k: int, q: real, poll: real)
    requires poll > 0.0 && (k as real) < q
    ensures Naps(k, poll) < q * poll
  {
    var gap := q - k as real;
    assert gap * poll > 0.0;
  }

  /** A read made before the deadline is one of the first ceil(timeout / poll). */
  lemma BeforeDeadlineIff(k: nat, timeout: real, poll: real)
    requires poll > 0.0 && k > 0
    ensures Naps(k - 1, poll) < timeout <==> k < ReadLimit(timeout, poll)
  {
    var n := ReadLimit(timeout, poll);
    ReadLimitIsFirstPast(timeout, poll);
    if k < n {
      NapsMonotone(k - 1, n - 2, poll);
    } else {
      NapsMonotone(n - 1, k - 1, poll);
    }
  }

  // ----- the loop -----

  /** The lag in force once the write is made: a fresh one if it re-enabled the port, else what the
      first reading left over. */
  function LagAfterWrite(port: PsePort, on: bool): nat
    reads port
  {
    if on && !port.admin then port.enableLag
    else if port.lag > 0 then port.lag - 1 else 0
  }

  lemma NextNap(k: nat, poll: real)
    requires k > 0
    ensures Naps(k, poll) == Naps(k - 1, poll) + poll
  {
  }

  /** Succeeds exactly when the lag is outlasted in time, after one read more than the lag; otherwise
      gives up after exactly ceil(timeout / poll) + 1 reads. Switching off is seen at once. */
  method SetPoe(port: PsePort, on: bool, guarded: bool, offTimeout: real, onTimeout: real, poll: real)
    returns (r: Result<()>)
    requires poll > 0.0
    modifies port
    ensures guarded && !on ==> r == Err(ProtectedPort) && port.admin == old(port.admin) && port.polls == old(port.polls)
    ensures on || !guarded ==>
              && port.admin == on
              && var lag := old(LagAfterWrite(port, on));
              && (r.Ok? <==> !on || lag == 0 || Naps(lag - 1, poll) < onTimeout)
              && port.polls == old(port.polls) + 1
                   + (if !on then 1 else if r.Ok? then lag + 1 else ReadLimit(onTimeout, poll))
              && port.now == old(port.now) + Naps(port.polls - old(port.polls) - 2, poll)
  {
    if !on && guarded {
      return Err(ProtectedPort);
    }
    var _ := port.ReadsEnabled();
    port.SetAdmin(on);
    ghost var lag := port.lag;
    var timeout := if on then onTimeout else offTimeout;
    var deadline := port.now + timeout;
    ghost var k: nat := 1;
    while true
      invariant k >= 1 && port.admin == on
      invariant port.polls == old(port.polls) + k
      invariant port.now == old(port.now) + Naps(k - 1, poll)
      invariant on ==> k - 1 <= lag && port.lag == lag - (k - 1)
      invariant !on ==> k == 1
      invariant k > 1 ==> k - 1 < ReadLimit(timeout, poll)
      decreases ReadLimit(timeout, poll) - k
    {
      var enabled := port.ReadsEnabled();
      if enabled == on {
        if on && lag > 0 { BeforeDeadlineIff(lag, onTimeout, poll); }
        return Ok(());
      }
      BeforeDeadlineIff(k, timeout, poll);
      if port.now >= deadline {
        BeforeDeadlineIff(lag, onTimeout, poll);
        return Err(VerificationFailed);
      }
      port.Sleep(poll);
      NextNap(k, poll);
      k := k + 1;
    }
  }
}
