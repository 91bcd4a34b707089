/** SyncSwitch (sync_api.py): readers and writers built on demand and cached per backend, secrets resolved
    on demand and at most once, and the lifetime of the HTTP client the facade builds for itself. */
module Facade {
  import opened Models

  datatype Backend = SnmpBackend | NsdpBackend | HttpBackend | SshBackend | TelnetBackend | ConsoleBackend

  datatype Secret = WriteCommunity | NsdpPassword | HttpPassword

  /** A reader or writer object: the backend it was built for, and which construction made it. */
  datatype Built = Built(backend: Backend, serial: nat)

  /** What the caller handed the constructor, and how the world answers: `resolver` maps a secret and the
      number of earlier attempts to None (it raised) or to what it returned; the last two say why a reader
      or writer cannot be built at all (no credentials, or a model not verified on that backend). */
  datatype Setup = Setup(
    injectedWriteClient: bool,
    injectedHttp: bool,
    injectedCli: bool,
    explicit: Secret -> Option<string>,
    hasResolver: Secret -> bool,
    resolver: (Secret, nat) -> Option<Option<string>>,
    readerError: Backend -> Option<Error>,
    writerError: Backend -> Option<Error>)

  /** An HTTP client: the caller's own, or one the facade built. */
  datatype Client = Injected | SelfBuilt(id: nat)

  predicate IsCli(b: Backend) { b == SshBackend || b == TelnetBackend || b == ConsoleBackend }

  /** A secret's resolver has answered at most once, and only if the answer is remembered. */
  predicate SecretOk(successes: nat, calls: nat, known: bool) {
    successes <= calls && successes <= 1 && (successes == 1 ==> known)
  }

  /** The secret a caller in need of it would be handed, if any: the remembered answer; else the explicit one;
      else what its resolver would say. */
  ghost function WouldBeGiven(setup: Setup, resolved: map<Secret, Option<string>>, calls: map<Secret, nat>, sec: Secret)
    : Option<string>
  {
    if sec in resolved then resolved[sec]
    else if setup.explicit(sec).Some? then setup.explicit(sec)
    else if !setup.hasResolver(sec) || sec !in calls then None
    else
      var reply := setup.resolver(sec, calls[sec]);
      if reply.None? then None else reply.value
  }

  class SyncSwitch {
    const setup: Setup
    var readers: map<Backend, Built>
    var writers: map<Backend, Built>
    var resolved: map<Secret, Option<string>>
    /** The self-built HTTP client, and every one still open. */
    var builtHttp: Option<nat>
    var openHttp: set<nat>
    /** CLI sessions self-built by a reader (true) or a writer (false) and still open. */
    var openCli: set<(bool, Backend)>
    var everBuilt: set<nat>
    var closedHttp: set<Client>
    var calls: map<Secret, nat>
    var successes: map<Secret, nat>
    var serial: nat

    /** Every cached object was built for the backend it is filed under. */
    ghost predicate CachesOk()
      reads this`readers, this`writers, this`serial
    {
      && (forall b :: b in readers ==> readers[b].backend == b && readers[b].serial < serial)
      && (forall b :: b in writers ==> writers[b].backend == b && writers[b].serial < serial)
    }

    ghost predicate SecretsOk()
      reads this`resolved, this`calls, this`successes
    {
      forall sec: Secret :: sec in calls && sec in successes && SecretOk(successes[sec], calls[sec], sec in resolved)
    }

    /** The one HTTP client that may be open is the one the facade remembers having built. */
    ghost predicate HttpOk()
      reads this`builtHttp, this`openHttp, this`serial, this`everBuilt, this`closedHttp
    {
      && openHttp == (if builtHttp.None? then {} else {builtHttp.value})
      && (setup.injectedHttp ==> builtHttp.None?)
      && (forall n :: n in everBuilt ==> n < serial && (n in openHttp || SelfBuilt(n) in closedHttp))
      && openHttp <= everBuilt
      && Injected !in closedHttp
    }

    ghost predicate CliOk()
      reads this`openCli, this`readers, this`writers
    {
      forall s :: s in openCli ==>
        IsCli(s.1) && !setup.injectedCli && (s.0 ==> s.1 in readers) && (!s.0 ==> s.1 in writers)
    }

    ghost predicate Valid()
      reads this
    {
      CachesOk() && SecretsOk() && HttpOk() && CliOk()
    }

    /** What no call ever undoes: cached objects and resolved secrets stay what they are. */
    twostate predicate OnlyGrows()
      reads this
    {
      && (forall b :: b in old(readers) ==> b in readers && readers[b] == old(readers)[b])
      && (forall b :: b in old(writers) ==> b in writers && writers[b] == old(writers)[b])
      && (forall sec :: sec in old(resolved) ==> sec in resolved && resolved[sec] == old(resolved)[sec])
    }

    ghost function WouldGet(sec: Secret): Option<string>
      reads this`resolved, this`calls
    {
      WouldBeGiven(setup, resolved, calls, sec)
    }

    constructor (setup: Setup)
      ensures Valid() && this.setup == setup
      ensures readers == map[] && writers == map[] && resolved == map[] && openHttp == {} && openCli == {}
      ensures calls == map[WriteCommunity := 0, NsdpPassword := 0, HttpPassword := 0]
    {
      this.setup := setup;
      readers, writers, resolved := map[], map[], map[];
      builtHttp, openHttp, openCli, everBuilt, closedHttp := None, {}, {}, {}, {};
      calls := map[WriteCommunity := 0, NsdpPassword := 0, HttpPassword := 0];
      successes := map[WriteCommunity := 0, NsdpPassword := 0, HttpPassword := 0];
      serial := 0;
      new;
      forall sec: Secret ensures sec in calls && calls[sec] == 0 && sec in successes && successes[sec] == 0 {
        match sec case WriteCommunity => case NsdpPassword => case HttpPassword =>
      }
    }

    /** `_resolve_write_community`, `_resolve_nsdp_password`, `_resolve_http_password`. A resolver that
        raises is not remembered; one that answers, even with None, is never asked again. */
    method Resolve(sec: Secret) returns (r: Result<Option<string>>)
      requires Valid()
      modifies this`resolved, this`calls, this`successes
      ensures Valid() && OnlyGrows()
      ensures r.Ok? ==> sec in resolved && r.value == resolved[sec]
      ensures sec in old(resolved) ==> r == Ok(old(resolved)[sec]) && calls == old(calls)
      // An explicit secret wins, else the resolver is asked once, else there is none.
      ensures sec !in old(resolved) && setup.explicit(sec).Some? ==> r == Ok(setup.explicit(sec)) && calls == old(calls)
      ensures sec !in old(resolved) && setup.explicit(sec).None? && setup.hasResolver(sec) ==>
                var reply := setup.resolver(sec, old(calls)[sec]);
                && calls == old(calls)[sec := old(calls)[sec] + 1]
                && r == if reply.None? then Err(Credential) else Ok(reply.value)
      ensures sec !in old(resolved) && setup.explicit(sec).None? && !setup.hasResolver(sec) ==>
                r == Ok(None) && calls == old(calls)
      ensures r.Err? ==> resolved == old(resolved) && successes == old(successes)
      ensures forall other :: other != sec ==> calls[other] == old(calls)[other]
    {
      if sec in resolved { return Ok(resolved[sec]); }
      if setup.explicit(sec).Some? || !setup.hasResolver(sec) {
        resolved := resolved[sec := setup.explicit(sec)];
        return Ok(resolved[sec]);
      }
      r := Ask(sec);
    }

    /** One call of a secret's resolver. */
    method Ask(sec: Secret) returns (r: Result<Option<string>>)
      requires Valid() && sec !in resolved
      modifies this`resolved, this`calls, this`successes
      ensures Valid() && OnlyGrows()
      ensures r.Ok? ==> sec in resolved && r.value == resolved[sec]
      ensures var reply := setup.resolver(sec, old(calls)[sec]);
              && calls == old(calls)[sec := old(calls)[sec] + 1]
              && r == if reply.None? then Err(Credential) else Ok(reply.value)
      ensures r.Err? ==> resolved == old(resolved) && successes == old(successes)
    {
      var reply := setup.resolver(sec, calls[sec]);
      calls := calls[sec := calls[sec] + 1];
      if reply.None? { return Err(Credential); }
      successes, resolved := successes[sec := successes[sec] + 1], resolved[sec := reply.value];
      return Ok(reply.value);
    }

    /** Resolve a secret that must be there. */
    method Require(sec: Secret) returns (r: Result<()>)
      requires Valid()
      modifies this`resolved, this`calls, this`successes
      ensures Valid() && OnlyGrows()
      ensures r == if old(WouldGet(sec)).Some? then Ok(()) else Err(Credential)
      ensures forall other :: other != sec ==> calls[other] == old(calls)[other]
    {
      var secret := Resolve(sec);
      if secret.Err? { return Err(secret.error); }
      return if secret.value.None? then Err(Credential) else Ok(());
    }

    /** `_reader_for`. */
    method ReaderFor(b: Backend) returns (r: Result<Built>)
      requires Valid()
      modifies this`readers, this`serial
      ensures Valid() && OnlyGrows()
      ensures r.Ok? ==> b in readers && r.value == readers[b]
      ensures r.Ok? <==> b in old(readers) || setup.readerError(b).None?
      ensures r.Err? ==> readers == old(readers) && setup.readerError(b) == Some(r.error)
    {
      if b in readers { return Ok(readers[b]); }
      if setup.readerError(b).Some? { return Err(setup.readerError(b).value); }
      readers := readers[b := Built(b, serial)];
      serial := serial + 1;
      return Ok(readers[b]);
    }

    /** What a backend's writer needs: the SNMP one the write community, unless the caller handed a client in; the
        NSDP one its password; the others a model verified on the backend. */
    ghost predicate MayWrite(b: Backend)
      reads this`resolved, this`calls
    {
      match b
      case SnmpBackend => setup.injectedWriteClient || WouldGet(WriteCommunity).Some?
      case NsdpBackend => WouldGet(NsdpPassword).Some?
      case _ => setup.writerError(b).None?
    }

    /** `_writer_for`. Only the SNMP writer needs the write community, only the NSDP one its password. */
    method WriterFor(b: Backend) returns (r: Result<Built>)
      requires Valid()
      modifies this`writers, this`serial, this`resolved, this`calls, this`successes
      ensures Valid() && OnlyGrows()
      ensures r.Ok? ==> b in writers && r.value == writers[b]
      ensures r.Ok? <==> b in old(writers) || old(MayWrite(b))
      ensures r.Err? ==> writers == old(writers)
      ensures b != SnmpBackend || setup.injectedWriteClient || b in old(writers) ==>
                calls[WriteCommunity] == old(calls)[WriteCommunity]
      ensures calls[HttpPassword] == old(calls)[HttpPassword]
      ensures b != SnmpBackend && b != NsdpBackend ==> resolved == old(resolved) && calls == old(calls)
    {
      if b in writers { return Ok(writers[b]); }
      var ready := WriterReady(b);
      if ready.Err? { return Err(ready.error); }
      r := FileWriter(b);
    }

    /** What stands between a backend and its writer: a secret that must be there, or a model not verified on it. */
    method WriterReady(b: Backend) returns (r: Result<()>)
      requires Valid()
      modifies this`resolved, this`calls, this`successes
      ensures Valid() && OnlyGrows()
      ensures r.Ok? <==> old(MayWrite(b))
      ensures b != SnmpBackend || setup.injectedWriteClient ==> calls[WriteCommunity] == old(calls)[WriteCommunity]
      ensures calls[HttpPassword] == old(calls)[HttpPassword]
      ensures b != SnmpBackend && b != NsdpBackend ==> resolved == old(resolved) && calls == old(calls)
    {
      if b == SnmpBackend && setup.injectedWriteClient { return Ok(()); }
      if b == SnmpBackend || b == NsdpBackend {
        r := Require(if b == SnmpBackend then WriteCommunity else NsdpPassword);
        return;
      }
      return if setup.writerError(b).Some? then Err(setup.writerError(b).value) else Ok(());
    }

    method FileWriter(b: Backend) returns (r: Result<Built>)
      requires Valid() && b !in writers
      modifies this`writers, this`serial
      ensures Valid() && OnlyGrows()
      ensures r.Ok? && b in writers && r.value == writers[b]
    {
      writers := writers[b := Built(b, serial)];
      serial := serial + 1;
      return Ok(writers[b]);
    }

    /** `_http_session`: the injected client, the one already built, or a new one. */
    method HttpSession() returns (r: Result<Client>)
      requires Valid()
      modifies this`builtHttp, this`openHttp, this`everBuilt, this`serial, this`resolved, this`calls, this`successes
      ensures Valid() && OnlyGrows()
      ensures r.Ok? ==> r.value == if setup.injectedHttp then Injected
                                   else (if builtHttp.Some? then SelfBuilt(builtHttp.value) else Injected)
      ensures r.Ok? && !setup.injectedHttp ==> builtHttp.Some? && builtHttp.value in openHttp
      ensures r.Ok? <==> setup.injectedHttp || old(builtHttp).Some? || old(WouldGet(HttpPassword)).Some?
      ensures r.Ok? && old(builtHttp).None? && !setup.injectedHttp ==> builtHttp.value !in old(everBuilt)
      ensures r.Err? ==> r.error == Credential && builtHttp == old(builtHttp)
      ensures old(builtHttp).Some? ==> builtHttp == old(builtHttp) && calls == old(calls)
      ensures calls[WriteCommunity] == old(calls)[WriteCommunity]
    {
      if setup.injectedHttp { return Ok(Injected); }
      if builtHttp.None? {
        var ready := Require(HttpPassword);
        if ready.Err? { return Err(ready.error); }
        BuildHttp();
      }
      return Ok(SelfBuilt(builtHttp.value));
    }

    method BuildHttp()
      requires Valid() && builtHttp.None? && !setup.injectedHttp
      modifies this`builtHttp, this`openHttp, this`everBuilt, this`serial
      ensures Valid() && OnlyGrows() && builtHttp.Some? && builtHttp.value !in old(everBuilt)
    {
      builtHttp, openHttp, everBuilt := Some(serial), openHttp + {serial}, everBuilt + {serial};
      serial := serial + 1;
    }

    /** First use of a lazy CLI session by the reader or the writer of backend `b`. */
    method CliSession(reading: bool, b: Backend) returns (r: Result<()>)
      requires Valid() && IsCli(b) && b in (if reading then readers else writers)
      modifies this`openCli, this`resolved, this`calls, this`successes
      ensures Valid() && OnlyGrows()
      ensures old(openCli) <= openCli <= old(openCli) + {(reading, b)}
      ensures r.Ok? <==> setup.injectedCli || (reading, b) in old(openCli) || old(WouldGet(HttpPassword)).Some?
      ensures r.Ok? && !setup.injectedCli ==> (reading, b) in openCli
      ensures r.Err? ==> r.error == Credential && openCli == old(openCli)
      ensures calls[WriteCommunity] == old(calls)[WriteCommunity]
    {
      if setup.injectedCli || (reading, b) in openCli { return Ok(()); }
      var ready := Require(HttpPassword);
      if ready.Err? { return ready; }
      openCli := openCli + {(reading, b)};
      return Ok(());
    }

    /** A session of the backend can be had, or there is none to be had. */
    ghost predicate MayUseSession(reading: bool, b: Backend)
      reads this
    {
      && (b == HttpBackend ==> setup.injectedHttp || builtHttp.Some? || WouldGet(HttpPassword).Some?)
      && (IsCli(b) ==> setup.injectedCli || (reading, b) in openCli || WouldGet(HttpPassword).Some?)
    }

    /** The reader or the writer can be had. */
    ghost predicate MayObtain(reading: bool, b: Backend)
      reads this
    {
      if reading then b in readers || setup.readerError(b).None? else b in writers || MayWrite(b)
    }

    method Obtain(reading: bool, b: Backend) returns (r: Result<Built>)
      requires Valid()
      modifies this`readers, this`writers, this`serial, this`resolved, this`calls, this`successes
      ensures Valid() && OnlyGrows()
      ensures r.Ok? <==> old(MayObtain(reading, b))
      ensures r.Ok? ==> b in (if reading then readers else writers)
      ensures reading || (b != SnmpBackend && b != NsdpBackend) ==> resolved == old(resolved) && calls == old(calls)
      ensures calls[HttpPassword] == old(calls)[HttpPassword]
    {
      if reading {
        r := ReaderFor(b);
      } else {
        r := WriterFor(b);
      }
    }

    /** The part of an operation that uses its reader's or writer's session. */
    method UseSession(reading: bool, b: Backend) returns (r: Result<()>)
      requires Valid() && b in (if reading then readers else writers)
      modifies this`openCli, this`builtHttp, this`openHttp, this`everBuilt, this`serial
      modifies this`resolved, this`calls, this`successes
      ensures Valid() && OnlyGrows() && old(openCli) <= openCli
      ensures calls[WriteCommunity] == old(calls)[WriteCommunity]
      ensures r.Ok? <==> old(MayUseSession(reading, b))
    {
      if b == HttpBackend {
        var session := HttpSession();
        return if session.Err? then Err(session.error) else Ok(());
      } else if IsCli(b) {
        r := CliSession(reading, b);
        return;
      }
      return Ok(());
    }

    /** `_read` and `_write` on one backend; `wire` says whether the operation gets as far as the session. */
    method Operate(reading: bool, b: Backend, wire: bool) returns (r: Result<()>)
      requires Valid()
      modifies this
      ensures Valid() && OnlyGrows()
      ensures reading ==> calls[WriteCommunity] == old(calls)[WriteCommunity]
      ensures r.Ok? <==> old(MayObtain(reading, b)) && (wire ==> old(MayUseSession(reading, b)))
      ensures r.Ok? ==> b in (if reading then readers else writers)
      ensures old(openCli) <= openCli
      ensures !wire ==>
                && openHttp == old(openHttp) && openCli == old(openCli)
                && calls[HttpPassword] == old(calls)[HttpPassword]
    {
      var built := Obtain(reading, b);
      if built.Err? { return Err(built.error); }
      if !wire { return Ok(()); }
      label obtained:
      assert old@obtained(MayUseSession(reading, b)) <==> old(MayUseSession(reading, b));
      r := UseSession(reading, b);
    }

    /** `close`: the facade's own HTTP client only; CLI sessions it opened stay open. */
    method Close()
      requires Valid()
      modifies this`builtHttp, this`openHttp, this`closedHttp
      ensures Valid() && OnlyGrows()
      ensures openHttp == {} && builtHttp.None?
      ensures forall n :: n in everBuilt ==> SelfBuilt(n) in closedHttp
      ensures openCli == old(openCli) && calls == old(calls)
    {
      if builtHttp.Some? {
        closedHttp := closedHttp + {SelfBuilt(builtHttp.value)};
        openHttp := openHttp - {builtHttp.value};
        builtHttp := None;
      }
    }

    /** Any run of calls, and which of them returned normally. */
    method Run(ops: seq<Call>) returns (done: seq<bool>)
      requires Valid()
      modifies this
      ensures Valid() && OnlyGrows()
      ensures |openHttp| <= 1 && Injected !in closedHttp
      ensures forall sec: Secret :: sec in successes && successes[sec] <= 1
      ensures OnlyReads(ops) ==> calls[WriteCommunity] == old(calls)[WriteCommunity]
      ensures ops != [] && ops[|ops| - 1].Close? ==>
                openHttp == {} && forall n :: n in everBuilt ==> SelfBuilt(n) in closedHttp
      ensures old(openCli) <= openCli
      // What was used is there: the reader or writer of every operation that returned normally.
      ensures |done| == |ops|
      ensures forall i :: 0 <= i < |ops| && done[i] ==> Used(ops[i])
      ensures forall i :: 0 <= i < |ops| && MustSucceed(setup, ops[i]) ==> done[i]
    {
      done := DoCalls(ops);
    }

    method DoCalls(ops: seq<Call>) returns (done: seq<bool>)
      requires Valid()
      modifies this
      ensures Valid() && OnlyGrows() && old(openCli) <= openCli
      ensures OnlyReads(ops) ==> calls[WriteCommunity] == old(calls)[WriteCommunity]
      ensures ops != [] && ops[|ops| - 1].Close? ==> openHttp == {}
      ensures |done| == |ops| && SoFar(ops, done)
    {
      done := [];
      for i := 0 to |ops|
        invariant Valid() && OnlyGrows() && old(openCli) <= openCli
        invariant OnlyReads(ops[..i]) ==> calls[WriteCommunity] == old(calls)[WriteCommunity]
        invariant i > 0 && ops[i - 1].Close? ==> openHttp == {}
        invariant |done| == i && SoFar(ops, done)
      {
        done := NextCall(ops, done);
      }
      assert ops[..|ops|] == ops;
    }

    method NextCall(ops: seq<Call>, done: seq<bool>) returns (next: seq<bool>)
      requires Valid() && |done| < |ops| && SoFar(ops, done)
      modifies this
      ensures Valid() && OnlyGrows() && old(openCli) <= openCli
      ensures |next| == |done| + 1 && SoFar(ops, next)
      ensures OnlyReads(ops[..|next|]) ==>
                OnlyReads(ops[..|done|]) && calls[WriteCommunity] == old(calls)[WriteCommunity]
      ensures ops[|done|].Close? ==> openHttp == {}
    {
      var c := ops[|done|];
      assert ops[..|done| + 1] == ops[..|done|] + [c];
      var ok := DoCall(c);
      next := done + [ok];
    }

    /** Of the calls made so far, those that returned normally have left their reader or writer, and those that
        nothing stood in the way of did return normally. */
    predicate SoFar(ops: seq<Call>, done: seq<bool>)
      reads this`readers, this`writers
      requires |done| <= |ops|
    {
      && (forall i :: 0 <= i < |done| && done[i] ==> Used(ops[i]))
      && (forall i :: 0 <= i < |done| && MustSucceed(setup, ops[i]) ==> done[i])
    }

    /** The reader or writer the call goes through is there. */
    predicate Used(c: Call)
      reads this`readers, this`writers
    {
      c.Operation? ==> c.backend in (if c.reading then readers else writers)
    }

    /** One call, and whether it returned normally. */
    method DoCall(c: Call) returns (ok: bool)
      requires Valid()
      modifies this
      ensures Valid() && OnlyGrows() && old(openCli) <= openCli
      ensures c.Close? || c.reading ==> calls[WriteCommunity] == old(calls)[WriteCommunity]
      ensures c.Close? ==> openHttp == {}
      ensures ok ==> Used(c)
      ensures forall other: Call :: old(Used(other)) ==> Used(other)
      ensures MustSucceed(setup, c) ==> ok
    {
      match c {
        case Close =>
          Close();
          return true;
        case Operation(reading, b, wire) =>
          var r := Operate(reading, b, wire);
          return r.Ok?;
      }
    }
  }

  datatype Call = Close | Operation(reading: bool, backend: Backend, wire: bool)

  predicate OnlyReads(ops: seq<Call>) {
    forall c :: c in ops ==> c.Close? || c.reading
  }

  /** A call nothing stands in the way of: closing, or a reading on a verified backend that needs no session
      or has the caller's own. */
  predicate MustSucceed(setup: Setup, c: Call) {
    || c.Close?
    || (c.reading && setup.readerError(c.backend).None? && (c.wire ==> setup.injectedHttp && setup.injectedCli))
  }
}
