/** The in-memory MFA state in place, and the login that works on it. */
module MfaRepository {
  import opened Wrappers
  import opened Mfa

  class Repository {
    var mfaConfigs: map<string, Configuration>
    var mfaChallenges: map<string, Challenge>
    var recoveryCodes: map<string, map<string, bool>>

    function State(): Repo
      reads this
    {
      Repo(mfaConfigs, mfaChallenges, recoveryCodes)
    }

    constructor ()
      ensures State() == Repo(map[], map[], map[])
    {
      mfaConfigs, mfaChallenges, recoveryCodes := map[], map[], map[];
    }

    method ConsumeMFAChallenge(token: string, now: Time) returns (c: Option<Challenge>)
      modifies this`mfaChallenges
      ensures c.Some? <==> token in old(mfaChallenges) && now < old(mfaChallenges)[token].expiresAt
      ensures c.Some? ==> c.value == old(mfaChallenges)[token]
      ensures mfaChallenges == if c.Some? then old(mfaChallenges) - {token} else old(mfaChallenges)
    {
      if token !in mfaChallenges || mfaChallenges[token].expiresAt <= now { return None; }
      c := Some(mfaChallenges[token]);
      mfaChallenges := mfaChallenges - {token};
    }

    method ConfirmMFA(user: string, secret: Secret, counter: int, codes: set<string>) returns (ok: bool)
      modifies this`mfaConfigs, this`recoveryCodes
      ensures ok <==> user !in old(mfaConfigs)
      ensures State() == if ok then Enrol(old(State()), user, secret, counter, codes) else old(State())
      ensures ok ==>
                && mfaConfigs == old(mfaConfigs)[user := Configuration(secret, counter)]
                && user in recoveryCodes && recoveryCodes[user].Keys == codes
                && (forall c :: c in codes ==> !recoveryCodes[user][c])
                && (forall u :: u in old(recoveryCodes) && u != user ==>
                      u in recoveryCodes && recoveryCodes[u] == old(recoveryCodes)[u])
    {
      if user in mfaConfigs { return false; }
      var unused: map<string, bool> := map[];
      var rest := codes;
      while rest != {}
        invariant rest <= codes && unused == map c | c in codes - rest :: false
        decreases |rest|
      {
        var c :| c in rest;
        unused := unused[c := false];
        rest := rest - {c};
      }
      assert codes - rest == codes;
      mfaConfigs := mfaConfigs[user := Configuration(secret, counter)];
      recoveryCodes := recoveryCodes[user := unused];
      return true;
    }

    method AdvanceMFACounter(user: string, counter: int) returns (advanced: bool)
      modifies this`mfaConfigs
      ensures advanced <==> Advance(old(State()), user, counter).Some?
      ensures State() == if advanced then Advance(old(State()), user, counter).value else old(State())
      ensures advanced <==> user in old(mfaConfigs) && old(mfaConfigs)[user].lastCounter < counter
      ensures mfaConfigs == if advanced
                            then old(mfaConfigs)[user := Configuration(old(mfaConfigs)[user].secret, counter)]
                            else old(mfaConfigs)
    {
      if user !in mfaConfigs || counter <= mfaConfigs[user].lastCounter { return false; }
      mfaConfigs := mfaConfigs[user := mfaConfigs[user].(lastCounter := counter)];
      return true;
    }

    method ConsumeMFARecoveryCode(user: string, code: string) returns (consumed: bool)
      modifies this`recoveryCodes
      ensures consumed <==> Unused(old(State()), user, code)
      ensures State() == if consumed then Use(old(State()), user, code) else old(State())
      ensures consumed <==>
              && user in old(recoveryCodes) && code in old(recoveryCodes)[user] && !old(recoveryCodes)[user][code]
      ensures recoveryCodes == if consumed then old(recoveryCodes)[user := old(recoveryCodes)[user][code := true]]
                               else old(recoveryCodes)
    {
      if user !in recoveryCodes || code !in recoveryCodes[user] || recoveryCodes[user][code] { return false; }
      recoveryCodes := recoveryCodes[user := recoveryCodes[user][code := true]];
      return true;
    }

    /** The second step of a privileged login. */
    method CompletePrivilegedLogin(cfg: Config, token: string, code: string, active: bool, newCodes: set<string>,
                                   now: Time)
      returns (v: Verdict)
      modifies this
      ensures (State(), v) == LoginStep(cfg, old(State()), token, code, active, newCodes, now)
      ensures now >= 0 && (v.ByCode? || v.Enrolled?) ==>
                && Opens(old(State()), token, active, now)
                && var c := old(mfaChallenges)[token];
                   && v.user == c.user && (v.Enrolled? <==> c.pending.Some?) && SecretOf(old(State()), c).Some?
                   && Says(code, TotpCode(cfg, SecretOf(old(State()), c).value, v.counter))
                   && 30 * v.counter - 30 <= now / 1_000_000 < 30 * v.counter + 60
      ensures forall k | now >= 0 && InStep(now / 1_000_000, k) && Opens(old(State()), token, active, now) ::
                var c := old(mfaChallenges)[token];
                && SecretOf(old(State()), c).Some? && Says(code, TotpCode(cfg, SecretOf(old(State()), c).value, k))
                && (c.user in old(mfaConfigs) ==> old(mfaConfigs)[c.user].lastCounter < k)
                ==> v == if c.pending.Some? then Enrolled(c.user, k) else ByCode(c.user, k)
    {
      if now >= 0 { LoginByCode(cfg, State(), token, code, active, newCodes, now); }
      hide Matched, Unused, Says, InStep, Chosen, TotpCode;
      var challenge := ConsumeMFAChallenge(token, now);
      if challenge == None || !active { return Refused; }
      var user := challenge.value.user;
      if challenge.value.pending.Some? {
        var counter := ValidateTOTP(cfg, challenge.value.pending.value, code, now);
        if counter == None { return Refused; }
        var ok := ConfirmMFA(user, challenge.value.pending.value, counter.value, newCodes);
        return if ok then Enrolled(user, counter.value) else Refused;
      }
      if user !in mfaConfigs { return Refused; }
      var counter := ValidateTOTP(cfg, mfaConfigs[user].secret, code, now);
      if counter == None {
        var consumed := ConsumeMFARecoveryCode(user, cfg.normal(code));
        return if consumed then ByRecovery(user, cfg.normal(code)) else Refused;
      }
      if counter.value >= 0 {
        var advanced := AdvanceMFACounter(user, counter.value);
        if !advanced { return Refused; }
      }
      return ByCode(user, counter.value);
    }

    method CreateStepUpProof(cfg: Config, user: string, code: string, allowed: bool, now: Time) returns (v: Verdict)
      modifies this
      ensures (State(), v) == StepUpStep(cfg, old(State()), user, code, allowed, now)
      ensures now >= 0 && v != Refused ==>
                && allowed && user in old(mfaConfigs) && v.ByCode? && v.user == user
                && Says(code, TotpCode(cfg, old(mfaConfigs)[user].secret, v.counter))
                && 30 * v.counter - 30 <= now / 1_000_000 < 30 * v.counter + 60
                && old(mfaConfigs)[user].lastCounter < v.counter
      ensures forall k | now >= 0 && InStep(now / 1_000_000, k) && allowed && user in old(mfaConfigs) ::
                Says(code, TotpCode(cfg, old(mfaConfigs)[user].secret, k)) && old(mfaConfigs)[user].lastCounter < k
                ==> v == ByCode(user, k)
    {
      if now >= 0 { StepUpByCode(cfg, State(), user, code, allowed, now); }
      hide Matched, Says, InStep, Chosen, TotpCode;
      if !allowed || user !in mfaConfigs { return Refused; }
      var counter := ValidateTOTP(cfg, mfaConfigs[user].secret, code, now);
      if counter == None { return Refused; }
      var advanced := AdvanceMFACounter(user, counter.value);
      return if advanced then ByCode(user, counter.value) else Refused;
    }
  }

  /** Tries the current step, the one before and the one after. */
  method ValidateTOTP(cfg: Config, secret: Secret, code: string, now: Time) returns (counter: Option<int>)
    ensures counter == Matched(cfg, secret, code, now)
    ensures forall c :: counter == Some(c) <==> Chosen(cfg, secret, code, now / 1_000_000, c)
    ensures now >= 0 && counter.Some? ==>
              && Says(code, TotpCode(cfg, secret, counter.value))
              && 30 * counter.value - 30 <= now / 1_000_000 < 30 * counter.value + 60
    ensures forall k :: InStep(now / 1_000_000, k) && Says(code, TotpCode(cfg, secret, k)) ==> counter == Some(k)
  {
    forall c ensures Matched(cfg, secret, code, now) == Some(c) <==> Chosen(cfg, secret, code, now / 1_000_000, c) {
      MatchedIff(cfg, secret, code, now, c);
    }
    forall k ensures InStep(now / 1_000_000, k) && Says(code, TotpCode(cfg, secret, k)) ==>
                       Matched(cfg, secret, code, now) == Some(k)
    {
      MatchedIff(cfg, secret, code, now, k);
      if InStep(now / 1_000_000, k) { ChosenNow(cfg, secret, code, now / 1_000_000, k); }
    }
    if now >= 0 { CodeInTime(cfg, secret, code, now); }
    hide Says, Chosen, InStep, TotpCode, Atoi, Trimmed, CurrentCounter;
    var digits := Trimmed(code);
    if |digits| != 6 || Atoi(digits) == None { return None; }
    var provided, current := Atoi(digits).value, CurrentCounter(now);
    var candidates := [current, current - 1, current + 1];
    for i := 0 to 3
      invariant forall k :: 0 <= k < i ==> provided != TotpCode(cfg, secret, candidates[k])
    {
      if provided == TotpCode(cfg, secret, candidates[i]) {
        assert i == 0 || i == 1 || i == 2;
        assert i > 0 ==> provided != TotpCode(cfg, secret, candidates[0]);
        assert i > 1 ==> provided != TotpCode(cfg, secret, candidates[1]);
        return Some(candidates[i]);
      }
    }
    assert provided != TotpCode(cfg, secret, candidates[0]) && provided != TotpCode(cfg, secret, candidates[1])
        && provided != TotpCode(cfg, secret, candidates[2]);
    return None;
  }
}
