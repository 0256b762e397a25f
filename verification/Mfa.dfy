/** One-time codes: time-based codes whose counters only move forward, challenges and
    recovery codes that work once. */
module Mfa {
  import opened Wrappers
  import opened Framing

  type Secret = Bytes

  /** The keyed digest (twenty bytes), and the normal form of a recovery code. */
  datatype Config = Config(mac: (Secret, Bytes) -> Bytes, normal: string -> string)

  // --- The code of one counter -----------------------------------------------

  /** The low four bits of the last byte choose where four bytes are read. */
  function Offset(sum: Bytes): (o: nat)
    requires |sum| == 20
    ensures o + 3 < |sum| - 1
  {
    At(sum, 19) % 16
  }

  function At(b: Bytes, i: nat): int
    requires i < |b|
  {
    b[i]
  }

  function Truncate(sum: Bytes): (code: int)
    requires |sum| == 20
    ensures 0 <= code < 1_000_000
  {
    var o := Offset(sum);
    ((At(sum, o) % 128) * 0x100_0000 + At(sum, o + 1) * 0x1_0000 + At(sum, o + 2) * 0x100 + At(sum, o + 3)) % 1_000_000
  }

  /** That is the dynamic truncation of section 5.3 of RFC 4226: the four bytes as one
      big-endian number, its top bit dropped, and the last six decimal digits of the rest. */
  lemma TruncationMatches(sum: Bytes)
    requires |sum| == 20
    ensures
      var o := sum[19] as int % 16;
      0 <= o <= 15 && Truncate(sum) == (FromBigEndian(sum[o..o + 4]) % 0x8000_0000) % 1_000_000
  {
    var o := Offset(sum);
    var p := sum[o..o + 4];
    FourBytes(p);
    var top, low := At(p, 0), At(p, 1) * 0x1_0000 + At(p, 2) * 0x100 + At(p, 3);
    assert top * 0x100_0000 + low == (top / 128) * 0x8000_0000 + ((top % 128) * 0x100_0000 + low);
    DropHigh(top / 128, (top % 128) * 0x100_0000 + low);
  }

  lemma FourBytes(p: Bytes)
    requires |p| == 4
    ensures FromBigEndian(p) == At(p, 0) * 0x100_0000 + At(p, 1) * 0x1_0000 + At(p, 2) * 0x100 + At(p, 3)
  {
    assert p[..3][..2] == p[..2] && p[..2][..1] == p[..1] && p[..1][..0] == [];
    assert FromBigEndian(p[..1]) == At(p, 0);
    assert FromBigEndian(p[..2]) == At(p, 0) * 256 + At(p, 1);
    assert FromBigEndian(p[..3]) == (At(p, 0) * 256 + At(p, 1)) * 256 + At(p, 2);
  }

  lemma DropHigh(high: nat, low: nat)
    requires low < 0x8000_0000
    ensures (high * 0x8000_0000 + low) % 0x8000_0000 == low
  {}

  /** A digest is always twenty bytes long; one of any other length stands for no code. */
  function TotpCode(cfg: Config, secret: Secret, counter: int): int {
    var sum := cfg.mac(secret, Int64(counter));
    if |sum| != 20 then -1_000_000 else Truncate(sum)
  }

  /** The code of a counter: the truncated digest, under the secret, of the counter's eight
      bytes, which give it back. */
  lemma TotpCodeIs(cfg: Config, secret: Secret, counter: int)
    requires FitsInt64(counter) && |cfg.mac(secret, Int64(counter))| == 20
    ensures
      var sum := cfg.mac(secret, Int64(counter));
      var o := sum[19] as int % 16;
      && |Int64(counter)| == 8 && ToInt64(Int64(counter)) == counter
      && TotpCode(cfg, secret, counter) == (FromBigEndian(sum[o..o + 4]) % 0x8000_0000) % 1_000_000
  {
    Int64RoundTrip(counter);
    TruncationMatches(cfg.mac(secret, Int64(counter)));
  }

  // --- Checking a submitted code ---------------------------------------------

  predicate Digits(s: string) { forall i :: 0 <= i < |s| ==> '0' <= s[i] <= '9' }

  function Decimal(s: string): int
    requires Digits(s)
  {
    if s == "" then 0 else Decimal(s[..|s| - 1]) * 10 + (s[|s| - 1] as int - '0' as int)
  }

  /** Decimal digits with an optional sign, as `strconv.Atoi` reads them. */
  function Atoi(s: string): Option<int> {
    if s != "" && (s[0] == '+' || s[0] == '-') then
      if |s| < 2 || !Digits(s[1..]) then None
      else Some(if s[0] == '-' then -Decimal(s[1..]) else Decimal(s[1..]))
    else if s == "" || !Digits(s) then None
    else Some(Decimal(s))
  }

  /** Thirty-second steps since 1970; the source's division rounds toward zero. */
  function CurrentCounter(now: Time): int {
    var seconds := now / 1_000_000;
    if seconds >= 0 then seconds / 30 else -((-seconds) / 30)
  }

  predicate Blank(c: char) { c == ' ' || '\t' <= c <= '\r' }

  /** Without surrounding blanks. */
  function Trimmed(s: string): string {
    if s != "" && Blank(s[0]) then Trimmed(s[1..])
    else if s != "" && Blank(s[|s| - 1]) then Trimmed(s[..|s| - 1])
    else s
  }

  /** The step the code matches: the current one first, then its neighbours. */
  function Matched(cfg: Config, secret: Secret, code: string, now: Time): Option<int> {
    var digits := Trimmed(code);
    if |digits| != 6 || Atoi(digits) == None then None
    else
      var provided, current := Atoi(digits).value, CurrentCounter(now);
      if provided == TotpCode(cfg, secret, current) then Some(current)
      else if provided == TotpCode(cfg, secret, current - 1) then Some(current - 1)
      else if provided == TotpCode(cfg, secret, current + 1) then Some(current + 1)
      else None
  }

  // --- What a submitted code says ----------------------------------------------

  function Value(c: char): int { c as int - '0' as int }

  /** Six characters that are a number in decimal: six digits, or a sign and five. */
  ghost predicate Reads(s: string, n: int) {
    && |s| == 6
    && (forall i :: 1 <= i < 6 ==> '0' <= s[i] <= '9')
    && var low := 10000 * Value(s[1]) + 1000 * Value(s[2]) + 100 * Value(s[3]) + 10 * Value(s[4]) + Value(s[5]);
       if s[0] == '+' then n == low
       else if s[0] == '-' then n == -low
       else '0' <= s[0] <= '9' && n == 100000 * Value(s[0]) + low
  }

  /** Nothing but blanks around six characters that are this number. */
  ghost predicate Says(code: string, n: int) {
    exists i :: SaysFrom(code, i, n)
  }

  ghost predicate SaysFrom(code: string, i: int, n: int) {
    && 0 <= i <= |code| - 6 && Reads(code[i..i + 6], n)
    && forall k :: 0 <= k < |code| && (k < i || i + 6 <= k) ==> Space(code[k])
  }

  /** A space, or a character from the horizontal tab to the carriage return. */
  ghost predicate Space(c: char) { c as int == 32 || 9 <= c as int <= 13 }

  lemma FiveDigits(s: string)
    requires |s| == 5 && Digits(s)
    ensures Decimal(s) == 10000 * Value(s[0]) + 1000 * Value(s[1]) + 100 * Value(s[2]) + 10 * Value(s[3]) + Value(s[4])
  {
    assert s[..4][..3] == s[..3] && s[..3][..2] == s[..2] && s[..2][..1] == s[..1] && s[..1][..0] == "";
    assert Decimal(s[..1]) == Value(s[0]);
    assert Decimal(s[..2]) == Decimal(s[..1]) * 10 + Value(s[1]);
    assert Decimal(s[..3]) == Decimal(s[..2]) * 10 + Value(s[2]);
    assert Decimal(s[..4]) == Decimal(s[..3]) * 10 + Value(s[3]);
  }

  lemma DigitsOfSix(s: string)
    requires |s| == 6
    ensures Digits(s[1..]) <==> forall i :: 1 <= i < 6 ==> '0' <= s[i] <= '9'
    ensures Digits(s) <==> '0' <= s[0] <= '9' && Digits(s[1..])
    ensures Digits(s) ==> Digits(s[..5]) && Decimal(s) == Decimal(s[..5]) * 10 + Value(s[5])
  {
    forall i | 1 <= i < 6 ensures s[i] == s[1..][i - 1] {}
  }

  lemma AtoiReads(s: string, n: int)
    requires |s| == 6
    ensures Atoi(s) == Some(n) <==> Reads(s, n)
  {
    DigitsOfSix(s);
    if Digits(s[1..]) { FiveDigits(s[1..]); }
    if Digits(s) { FiveDigits(s[..5]); }
    hide Digits, Decimal;
  }

  lemma SpaceIsBlank(c: char)
    ensures Blank(c) <==> Space(c)
  {}

  /** Numbers begin and end with something other than a blank. */
  lemma ReadsEnds(s: string, n: int)
    requires Reads(s, n)
    ensures |s| == 6 && !Space(s[0]) && !Space(s[5]) && -100_000 < n < 1_000_000
  {}

  lemma SaysFromLater(code: string, i: int, n: int)
    requires code != "" && Space(code[0])
    ensures SaysFrom(code, i + 1, n) <==> SaysFrom(code[1..], i, n) || (i == -1 && SaysFrom(code, 0, n))
  {
    hide Reads, Space;
    if 0 <= i <= |code| - 7 { assert code[1..][i..i + 6] == code[i + 1..i + 1 + 6]; }
    if SaysFrom(code[1..], i, n) {
      forall k | 0 <= k < |code| && (k < i + 1 || i + 1 + 6 <= k) ensures Space(code[k]) {
        if k > 0 { assert code[k] == code[1..][k - 1]; }
      }
    }
  }

  lemma SaysLater(code: string, n: int)
    requires code != "" && Space(code[0])
    ensures Says(code, n) <==> Says(code[1..], n)
  {
    if SaysFrom(code, 0, n) { ReadsEnds(code[0..6], n); }
    hide SaysFrom, Space;
    var rest := code[1..];
    if i :| SaysFrom(code, i, n) { SaysFromLater(code, i - 1, n); }
    if i :| SaysFrom(rest, i, n) { SaysFromLater(code, i, n); }
  }

  lemma SaysFromSooner(code: string, i: int, n: int)
    requires code != "" && Space(code[|code| - 1])
    ensures SaysFrom(code, i, n) <==> SaysFrom(code[..|code| - 1], i, n)
  {
    var rest := code[..|code| - 1];
    if SaysFrom(code, i, n) {
      ReadsEnds(code[i..i + 6], n);
      assert code[i..i + 6][5] == code[i + 5];
    }
    hide Reads, Space;
    if 0 <= i <= |code| - 7 { assert rest[i..i + 6] == code[i..i + 6]; }
    if SaysFrom(rest, i, n) {
      forall k | 0 <= k < |code| && (k < i || i + 6 <= k) ensures Space(code[k]) {
        if k < |rest| { assert code[k] == rest[k]; }
      }
    }
  }

  lemma SaysSooner(code: string, n: int)
    requires code != "" && Space(code[|code| - 1])
    ensures Says(code, n) <==> Says(code[..|code| - 1], n)
  {
    hide SaysFrom, Space;
    var rest := code[..|code| - 1];
    if i :| SaysFrom(code, i, n) { SaysFromSooner(code, i, n); }
    if i :| SaysFrom(rest, i, n) { SaysFromSooner(code, i, n); }
  }

  lemma SaysPlain(code: string, n: int)
    requires code == "" || (!Space(code[0]) && !Space(code[|code| - 1]))
    ensures Says(code, n) <==> Reads(code, n)
  {
    if Reads(code, n) { ReadsEnds(code, n); }
    hide Reads, Space;
    if i :| SaysFrom(code, i, n) {
      assert i == 0 && |code| == 6;
      assert code[i..i + 6] == code;
    }
    if Reads(code, n) {
      assert code[0..0 + 6] == code;
      assert SaysFrom(code, 0, n);
    }
  }

  lemma {:induction false} TrimmedSays(code: string, n: int)
    ensures Says(code, n) <==> |Trimmed(code)| == 6 && Reads(Trimmed(code), n)
  {
    if code != "" {
      SpaceIsBlank(code[0]);
      SpaceIsBlank(code[|code| - 1]);
    }
    hide Says, Reads, Blank, Space;
    if code != "" && Blank(code[0]) {
      TrimmedSays(code[1..], n);
      SaysLater(code, n);
    } else if code != "" && Blank(code[|code| - 1]) {
      TrimmedSays(code[..|code| - 1], n);
      SaysSooner(code, n);
    } else {
      SaysPlain(code, n);
      if Reads(code, n) { ReadsEnds(code, n); }
    }
  }

  /** The thirty seconds from 30 k on, and before 1970, where steps are counted toward zero,
      the thirty up to 30 k. */
  ghost predicate InStep(seconds: int, k: int) {
    if seconds >= 0 then 30 * k <= seconds < 30 * k + 30 else 30 * k - 30 < seconds <= 30 * k
  }

  lemma InStepIff(now: Time, k: int)
    ensures InStep(now / 1_000_000, k) <==> CurrentCounter(now) == k
  {}

  /** The code is that of counter c: of the step itself if that fits, else of the one before,
      else of the one after. */
  ghost predicate Chosen(cfg: Config, secret: Secret, code: string, seconds: int, c: int) {
    exists k :: InStep(seconds, k) && ChosenBy(cfg, secret, code, k, c)
  }

  ghost predicate ChosenBy(cfg: Config, secret: Secret, code: string, k: int, c: int) {
    if Says(code, TotpCode(cfg, secret, k)) then c == k
    else if Says(code, TotpCode(cfg, secret, k - 1)) then c == k - 1
    else c == k + 1 && Says(code, TotpCode(cfg, secret, k + 1))
  }

  /** Which counter a submitted code is accepted for, if any. */
  lemma MatchedIff(cfg: Config, secret: Secret, code: string, now: Time, c: int)
    ensures Matched(cfg, secret, code, now) == Some(c) <==> Chosen(cfg, secret, code, now / 1_000_000, c)
  {
    var k := CurrentCounter(now);
    forall j ensures InStep(now / 1_000_000, j) <==> j == k { InStepIff(now, j); }
    MatchesSays(cfg, secret, code, k);
    MatchesSays(cfg, secret, code, k - 1);
    MatchesSays(cfg, secret, code, k + 1);
    hide InStep, CurrentCounter, TotpCode, Says, Atoi, Trimmed;
    assert InStep(now / 1_000_000, k);
  }

  lemma MatchesSays(cfg: Config, secret: Secret, code: string, k: int)
    ensures Says(code, TotpCode(cfg, secret, k))
       <==> |Trimmed(code)| == 6 && Atoi(Trimmed(code)) == Some(TotpCode(cfg, secret, k))
  {
    hide Says, Reads, Atoi, TotpCode, Trimmed;
    TrimmedSays(code, TotpCode(cfg, secret, k));
    if |Trimmed(code)| == 6 { AtoiReads(Trimmed(code), TotpCode(cfg, secret, k)); }
  }

  /** In seconds: a code accepted at a non-negative instant says the code of its counter, and
      comes within thirty seconds of that counter's own thirty. */
  lemma ChosenInTime(cfg: Config, secret: Secret, code: string, seconds: int, c: int)
    requires seconds >= 0 && Chosen(cfg, secret, code, seconds, c)
    ensures 30 * c - 30 <= seconds < 30 * c + 60
    ensures Says(code, TotpCode(cfg, secret, c))
  {
    hide Says, TotpCode;
  }

  /** The code of the step containing the instant is accepted for that step; nothing that is
      neither its code nor a neighbour's is. */
  lemma ChosenNow(cfg: Config, secret: Secret, code: string, seconds: int, k: int)
    requires InStep(seconds, k)
    ensures Says(code, TotpCode(cfg, secret, k)) ==> Chosen(cfg, secret, code, seconds, k)
    ensures (exists c :: Chosen(cfg, secret, code, seconds, c)) <==>
            || Says(code, TotpCode(cfg, secret, k)) || Says(code, TotpCode(cfg, secret, k - 1))
            || Says(code, TotpCode(cfg, secret, k + 1))
  {
    OneStep(seconds, k);
    hide Says, TotpCode, InStep;
    var c := if Says(code, TotpCode(cfg, secret, k)) then k
                   else if Says(code, TotpCode(cfg, secret, k - 1)) then k - 1 else k + 1;
    assert Says(code, TotpCode(cfg, secret, c)) ==> ChosenBy(cfg, secret, code, k, c);
    assert Says(code, TotpCode(cfg, secret, c)) ==> Chosen(cfg, secret, code, seconds, c);
  }

  lemma OneStep(seconds: int, k: int)
    requires InStep(seconds, k)
    ensures forall j :: InStep(seconds, j) ==> j == k
  {}

  // --- State and steps -------------------------------------------------------

  /** A pending secret means the login is an enrolment. */
  datatype Challenge = Challenge(user: string, pending: Option<Secret>, expiresAt: Time)

  datatype Configuration = Configuration(secret: Secret, lastCounter: int)

  /** `codes` holds for each user the recovery codes in normal form, and whether used. */
  datatype Repo = Repo(configs: map<string, Configuration>, challenges: map<string, Challenge>,
                       codes: map<string, map<string, bool>>)

  datatype Verdict =
    | Refused
    | ByCode(user: string, counter: int)
    | ByRecovery(user: string, recoveryCode: string)
    | Enrolled(user: string, counter: int)

  datatype Event =
    | Begin(token: string, user: string, secret: Secret, expiresAt: Time)
    | Login(token: string, code: string, active: bool, newCodes: set<string>, now: Time)
    | StepUp(user: string, code: string, allowed: bool, now: Time)

  function BeginStep(r: Repo, token: string, user: string, secret: Secret, expiresAt: Time): Repo {
    r.(challenges := r.challenges[token := Challenge(user, if user in r.configs then None
                                                     else Some(secret), expiresAt)])
  }

  function Advance(r: Repo, user: string, counter: int): Option<Repo> {
    if user !in r.configs || counter <= r.configs[user].lastCounter then None
    else Some(r.(configs := r.configs[user := r.configs[user].(lastCounter := counter)]))
  }

  predicate Unused(r: Repo, user: string, code: string) {
    user in r.codes && code in r.codes[user] && !r.codes[user][code]
  }

  function Use(r: Repo, user: string, code: string): Repo
    requires user in r.codes
  {
    r.(codes := r.codes[user := r.codes[user][code := true]])
  }

  function Enrol(r: Repo, user: string, secret: Secret, counter: int, codes: set<string>): Repo {
    r.(configs := r.configs[user := Configuration(secret, counter)],
       codes := r.codes[user := map c | c in codes :: false])
  }

  /** The rest of a login, once its challenge is consumed. */
  function Finish(cfg: Config, r: Repo, c: Challenge, code: string, newCodes: set<string>, now: Time): (Repo, Verdict) {
    if c.pending.Some? then
      match Matched(cfg, c.pending.value, code, now)
      case Some(counter) => if c.user in r.configs then (r, Refused)
          else (Enrol(r, c.user, c.pending.value, counter, newCodes), Enrolled(c.user, counter))
      case None => (r, Refused)
    else if c.user !in r.configs then (r, Refused)
    else
      match Matched(cfg, r.configs[c.user].secret, code, now)
      case Some(counter) =>
        if counter < 0 then (r, ByCode(c.user, counter))
        else
          var advanced := Advance(r, c.user, counter);
          if advanced.Some? then (advanced.value, ByCode(c.user, counter)) else (r, Refused)
      case None =>
        if Unused(r, c.user, cfg.normal(code))
            then (Use(r, c.user, cfg.normal(code)), ByRecovery(c.user, cfg.normal(code)))
        else (r, Refused)
  }

  /** The challenge is gone whatever comes of the login, unless it had expired. */
  function LoginStep(cfg: Config, r: Repo, token: string, code: string, active: bool, newCodes: set<string>,
                     now: Time): (Repo, Verdict) {
    if token !in r.challenges || now >= r.challenges[token].expiresAt then (r, Refused)
    else
      var r' := r.(challenges := r.challenges - {token});
      if !active then (r', Refused) else Finish(cfg, r', r.challenges[token], code, newCodes, now)
  }

  function StepUpStep(cfg: Config, r: Repo, user: string, code: string, allowed: bool, now: Time): (Repo, Verdict) {
    if !allowed || user !in r.configs then (r, Refused)
    else
      match Matched(cfg, r.configs[user].secret, code, now)
      case None => (r, Refused)
      case Some(counter) =>
        var advanced := Advance(r, user, counter);
        if advanced.Some? then (advanced.value, ByCode(user, counter)) else (r, Refused)
  }

  /** An open challenge of a user who may log in. */
  predicate Opens(r: Repo, token: string, active: bool, now: Time) {
    token in r.challenges && now < r.challenges[token].expiresAt && active
  }

  /** The secret that a login under this challenge is checked against: the pending one for an
      enrolment, and the user's own otherwise. */
  function SecretOf(r: Repo, c: Challenge): Option<Secret> {
    match c.pending
    case Some(secret) => if c.user in r.configs then None else Some(secret)
    case None => if c.user in r.configs then Some(r.configs[c.user].secret) else None
  }

  /** A login by a time-based code, in seconds and both ways: it needs an open challenge and a
      code of the instant's own step or a neighbour's, newer than the last one accepted; the
      code of the instant's own step, if that is newer, always gets in. The counter is
      recorded as the user's last. */
  lemma LoginByCode(cfg: Config, r: Repo, token: string, code: string, active: bool, newCodes: set<string>, now: Time)
    requires now >= 0
    ensures
      var (r', v) := LoginStep(cfg, r, token, code, active, newCodes, now);
      v.ByCode? || v.Enrolled? ==>
        && Opens(r, token, active, now)
        && var c := r.challenges[token];
           && v.user == c.user && (v.Enrolled? <==> c.pending.Some?) && SecretOf(r, c).Some?
           && Says(code, TotpCode(cfg, SecretOf(r, c).value, v.counter))
           && 30 * v.counter - 30 <= now / 1_000_000 < 30 * v.counter + 60
           && (v.counter >= 0 ==>
                 && (c.user in r.configs ==> r.configs[c.user].lastCounter < v.counter)
                 && r'.configs == r.configs[c.user := Configuration(SecretOf(r, c).value, v.counter)])
    ensures
      var (r', v) := LoginStep(cfg, r, token, code, active, newCodes, now);
      forall k | InStep(now / 1_000_000, k) && Opens(r, token, active, now) ::
        var c := r.challenges[token];
        && SecretOf(r, c).Some? && Says(code, TotpCode(cfg, SecretOf(r, c).value, k))
        && (c.user in r.configs ==> r.configs[c.user].lastCounter < k)
        ==> v == if c.pending.Some? then Enrolled(c.user, k) else ByCode(c.user, k)
  {
    if Opens(r, token, active, now) && SecretOf(r, r.challenges[token]).Some? {
      CodeInTime(cfg, SecretOf(r, r.challenges[token]).value, code, now);
    }
    hide Matched, Says, TotpCode, InStep, Unused;
  }

  /** What an enrolment leaves: one configuration and unused codes, each of which then gets one
      login, by its normal form, wherever the submitted code is that of no acceptable step. */
  lemma RecoveryCodesWork(cfg: Config, r: Repo, user: string, secret: Secret, counter: int, codes: set<string>,
                          token: string, code: string, active: bool, newCodes: set<string>, now: Time)
    requires cfg.normal(code) in codes && Opens(r, token, active, now)
    requires r.challenges[token].user == user && r.challenges[token].pending == None
    requires forall c :: !Chosen(cfg, secret, code, now / 1_000_000, c)
    ensures
      var enrolled := Enrol(r, user, secret, counter, codes);
      var (r', v) := LoginStep(cfg, enrolled, token, code, active, newCodes, now);
      && v == ByRecovery(user, cfg.normal(code)) && r'.configs == enrolled.configs
      && user in r'.codes && r'.codes[user].Keys == codes
      && (forall c :: c in codes ==> (r'.codes[user][c] <==> c == cfg.normal(code)))
  {
    if Matched(cfg, secret, code, now).Some? {
      MatchedIff(cfg, secret, code, now, Matched(cfg, secret, code, now).value);
    }
    hide Matched, Chosen;
  }

  /** The same of a step-up, which records the counter whatever it is. */
  lemma StepUpByCode(cfg: Config, r: Repo, user: string, code: string, allowed: bool, now: Time)
    requires now >= 0
    ensures
      var (r', v) := StepUpStep(cfg, r, user, code, allowed, now);
      && (v == Refused ==> r' == r)
      && (v != Refused ==>
            && allowed && user in r.configs && v.ByCode? && v.user == user
            && Says(code, TotpCode(cfg, r.configs[user].secret, v.counter))
            && 30 * v.counter - 30 <= now / 1_000_000 < 30 * v.counter + 60
            && r.configs[user].lastCounter < v.counter
            && r' == r.(configs := r.configs[user := Configuration(r.configs[user].secret, v.counter)]))
    ensures
      var v := StepUpStep(cfg, r, user, code, allowed, now).1;
      forall k | InStep(now / 1_000_000, k) && allowed && user in r.configs ::
        Says(code, TotpCode(cfg, r.configs[user].secret, k)) && r.configs[user].lastCounter < k ==> v == ByCode(user, k)
  {
    if user in r.configs { CodeInTime(cfg, r.configs[user].secret, code, now); }
    hide Matched, Says, TotpCode, InStep;
  }

  lemma CodeInTime(cfg: Config, secret: Secret, code: string, now: Time)
    requires now >= 0
    ensures
      var m := Matched(cfg, secret, code, now);
      && (m.Some? ==> Says(code, TotpCode(cfg, secret, m.value)) &&
                      30 * m.value - 30 <= now / 1_000_000 < 30 * m.value + 60)
      && (forall k :: InStep(now / 1_000_000, k) && Says(code, TotpCode(cfg, secret, k)) ==> m == Some(k))
  {
    hide Matched, Says, TotpCode, InStep, Chosen;
    var m := Matched(cfg, secret, code, now);
    if m.Some? {
      MatchedIff(cfg, secret, code, now, m.value);
      ChosenInTime(cfg, secret, code, now / 1_000_000, m.value);
    }
    forall k | InStep(now / 1_000_000, k) && Says(code, TotpCode(cfg, secret, k)) ensures m == Some(k) {
      ChosenNow(cfg, secret, code, now / 1_000_000, k);
      MatchedIff(cfg, secret, code, now, k);
    }
  }

  function Next(cfg: Config, r: Repo, e: Event): (Repo, Verdict) {
    match e
    case Begin(t, u, s, x) => (BeginStep(r, t, u, s, x), Refused)
    case Login(t, c, a, n, now) => LoginStep(cfg, r, t, c, a, n, now)
    case StepUp(u, c, a, now) => StepUpStep(cfg, r, u, c, a, now)
  }

  function Run(cfg: Config, events: seq<Event>): Repo {
    if events == [] then Repo(map[], map[], map[])
        else Next(cfg, Run(cfg, events[..|events| - 1]), events[|events| - 1]).0
  }

  function Last(cfg: Config, events: seq<Event>): Verdict
    requires events != []
  {
    Next(cfg, Run(cfg, events[..|events| - 1]), events[|events| - 1]).1
  }

  // --- Counters only move forward --------------------------------------------

  /** The counter an accepted time-based code stands for. */
  function CounterOf(v: Verdict, user: string): Option<int> {
    match v
    case ByCode(u, c) => if u == user then Some(c) else None
    case Enrolled(u, c) => if u == user then Some(c) else None
    case _ => None
  }

  /** Every counter accepted for the user, in order. */
  function AcceptedCounters(cfg: Config, events: seq<Event>, user: string): seq<int> {
    if events == [] then []
    else
      var c := CounterOf(Last(cfg, events), user);
      AcceptedCounters(cfg, events[..|events| - 1], user) + if c.Some? then [c.value] else []
  }

  predicate Increasing(counters: seq<int>) { forall i, j :: 0 <= i < j < |counters| ==> counters[i] < counters[j] }

  /** The repository's last counter is the last one accepted. */
  predicate Tracks(r: Repo, user: string, counters: seq<int>) {
    && Increasing(counters)
    && (user in r.configs <==> counters != [])
    && (user in r.configs ==> counters[|counters| - 1] == r.configs[user].lastCounter)
  }

  /** From the thirtieth second of 1970 on, every step a code can match is one that the
      repository records. */
  predicate LateEnough(e: Event) {
    (e.Login? ==> e.now >= 30_000_000) && (e.StepUp? ==> e.now >= 30_000_000)
  }

  lemma MatchedNotNegative(cfg: Config, secret: Secret, code: string, now: Time)
    requires now >= 30_000_000
    ensures Matched(cfg, secret, code, now).Some? ==> Matched(cfg, secret, code, now).value >= 0
  {
    assert CurrentCounter(now) >= 1;
    hide Atoi, TotpCode, CurrentCounter, Trimmed;
  }

  lemma Snoc(counters: seq<int>, c: int)
    requires Increasing(counters) && (counters != [] ==> counters[|counters| - 1] < c)
    ensures Increasing(counters + [c])
  {}

  function With(counters: seq<int>, v: Verdict, user: string): seq<int> {
    counters + if CounterOf(v, user).Some? then [CounterOf(v, user).value] else []
  }

  lemma AdvanceTracks(r: Repo, r': Repo, u: string, counter: int, user: string, counters: seq<int>)
    requires Tracks(r, user, counters) && Advance(r, u, counter) == Some(r')
    ensures Tracks(r', user, With(counters, ByCode(u, counter), user))
  {
    assert counters + [] == counters;
    if u == user { Snoc(counters, counter); }
    hide Increasing;
  }

  lemma EnrolTracks(r: Repo, u: string, secret: Secret, counter: int, codes: set<string>, user: string,
                    counters: seq<int>)
    requires Tracks(r, user, counters) && u !in r.configs
    ensures Tracks(Enrol(r, u, secret, counter, codes), user, With(counters, Enrolled(u, counter), user))
  {
    assert counters + [] == counters;
    if u == user { Snoc(counters, counter); }
    hide Increasing;
  }

  /** The repository's counters stay as they are. */
  lemma IdleTracks(r: Repo, r': Repo, v: Verdict, user: string, counters: seq<int>)
    requires Tracks(r, user, counters) && r'.configs == r.configs && CounterOf(v, user) == None
    ensures Tracks(r', user, With(counters, v, user))
  {
    assert counters + [] == counters;
  }

  lemma FinishTracks(cfg: Config, r: Repo, c: Challenge, code: string, newCodes: set<string>, now: Time, user: string,
                     counters: seq<int>)
    requires Tracks(r, user, counters) && now >= 30_000_000
    ensures
      var (r', v) := Finish(cfg, r, c, code, newCodes, now);
      Tracks(r', user, With(counters, v, user))
  {
    var (r', v) := Finish(cfg, r, c, code, newCodes, now);
    hide Tracks, With, Matched, Unused;
    if v.Enrolled? {
      EnrolTracks(r, c.user, c.pending.value, v.counter, newCodes, user, counters);
    } else if v.ByCode? {
      MatchedNotNegative(cfg, r.configs[c.user].secret, code, now);
      AdvanceTracks(r, r', c.user, v.counter, user, counters);
    } else {
      IdleTracks(r, r', v, user, counters);
    }
  }

  lemma StepTracks(cfg: Config, r: Repo, e: Event, user: string, counters: seq<int>)
    requires Tracks(r, user, counters) && LateEnough(e)
    ensures
      var (r', v) := Next(cfg, r, e);
      Tracks(r', user, With(counters, v, user))
  {
    var (r', v) := Next(cfg, r, e);
    hide Tracks, With, Matched, Finish;
    if e.StepUp? && v.ByCode? {
      AdvanceTracks(r, r', e.user, v.counter, user, counters);
    } else if e.Login? && e.token in r.challenges && e.active && e.now < r.challenges[e.token].expiresAt {
      var consumed := r.(challenges := r.challenges - {e.token});
      SameConfigsTrack(r, consumed, user, counters);
      FinishTracks(cfg, consumed, r.challenges[e.token], e.code, e.newCodes, e.now, user, counters);
    } else {
      IdleTracks(r, r', v, user, counters);
    }
  }

  lemma SameConfigsTrack(r: Repo, r': Repo, user: string, counters: seq<int>)
    requires Tracks(r, user, counters) && r'.configs == r.configs
    ensures Tracks(r', user, counters)
  {}

  /** Over any run of logins and step-ups, each user's accepted counters strictly increase
      (section 5.2 of RFC 6238): no code is accepted twice. */
  lemma {:induction false} CountersIncrease(cfg: Config, events: seq<Event>, user: string)
    requires forall i :: 0 <= i < |events| ==> LateEnough(events[i])
    ensures Tracks(Run(cfg, events), user, AcceptedCounters(cfg, events, user))
    ensures Increasing(AcceptedCounters(cfg, events, user))
  {
    if events != [] {
      hide Next, Tracks, LateEnough;
      var n := |events| - 1;
      forall i | 0 <= i < n ensures LateEnough(events[..n][i]) {
        assert events[..n][i] == events[i];
      }
      CountersIncrease(cfg, events[..n], user);
      StepTracks(cfg, Run(cfg, events[..n]), events[n], user, AcceptedCounters(cfg, events[..n], user));
    }
    TracksIncreasing(Run(cfg, events), user, AcceptedCounters(cfg, events, user));
  }

  lemma TracksIncreasing(r: Repo, user: string, counters: seq<int>)
    ensures Tracks(r, user, counters) ==> Increasing(counters)
  {}

  /** Before that second the login path skips the record for a step before the epoch. Of two
      open challenges of one user, a code whose step is acceptable opens the first; it opens
      the second as well exactly when that step is negative. */
  lemma RepeatedIff(cfg: Config, r: Repo, first: string, second: string, code: string, now: Time, step: int)
    requires first in r.challenges && second in r.challenges && first != second
    requires r.challenges[first].pending == None && r.challenges[second] == r.challenges[first] &&
             now < r.challenges[first].expiresAt
    requires r.challenges[first].user in r.configs
    requires Matched(cfg, r.configs[r.challenges[first].user].secret, code, now) == Some(step)
    requires step < 0 || step > r.configs[r.challenges[first].user].lastCounter
    ensures
      var user := r.challenges[first].user;
      var (r', v) := LoginStep(cfg, r, first, code, true, {}, now);
      && v == ByCode(user, step)
      && (LoginStep(cfg, r', second, code, true, {}, now).1 == ByCode(user, step) <==> step < 0)
    ensures step < 0 ==> now < 30_000_000
  {
    assert step < 0 ==> CurrentCounter(now) <= 0;
    hide Matched, Unused;
  }

  /** A digest that tells the step before the epoch from the others. */
  function StepDigest(secret: Secret, message: Bytes): Bytes {
    if message == Int64(-1) then [0, 0, 0, 0, 0, 0, 0, 0, 0, 0, 0, 0, 0, 0, 0, 0, 0, 0, 0, 0]
    else [1, 1, 1, 1, 1, 1, 1, 1, 1, 1, 1, 1, 1, 1, 1, 1, 1, 1, 1, 1]
  }

  const NOBODY: Repo := Repo(map[], map[], map[])

  function EpochConfig(): Config { Config(StepDigest, (s: string) => s) }

  function ToAnn(token: string): Event { Begin(token, "ann", [], 1) }

  function ByAnn(token: string): Event { Login(token, "000000", true, {}, 0) }

  /** The repository with ann enrolled at the step before the epoch. */
  function Enrolment(challenges: map<string, Challenge>): Repo {
    Repo(map["ann" := Configuration([], -1)], challenges, map["ann" := map[]])
  }

  /** One more event, and the counters accepted so far. */
  ghost predicate Reaches(cfg: Config, events: seq<Event>, r: Repo, counters: seq<int>) {
    Run(cfg, events) == r && AcceptedCounters(cfg, events, "ann") == counters
  }

  lemma Later(cfg: Config, before: seq<Event>, e: Event, events: seq<Event>, r: Repo, counters: seq<int>, r': Repo,
              v: Verdict)
    requires Reaches(cfg, before, r, counters) && Next(cfg, r, e) == (r', v) && events == before + [e]
    ensures Reaches(cfg, events, r', match CounterOf(v, "ann") case Some(c) => counters + [c] case None => counters)
  {
    assert events[..|before|] == before;
    assert counters + [] == counters;
    hide Next;
  }

  /** An input: at instant 0 ann enrols and opens two challenges, all with the code of the
      step before the epoch, which is so accepted three times. */
  lemma RepeatedAtTheEpoch()
    ensures
      var events := [ToAnn("t0"), ByAnn("t0"), ToAnn("t1"), ToAnn("t2"), ByAnn("t1"), ByAnn("t2")];
      AcceptedCounters(EpochConfig(), events, "ann") == [-1, -1, -1]
  {
    var cfg := EpochConfig();
    var c := Challenge("ann", None, 1);
    TwoChallenges();
    LogsInAtTheEpoch(map["t1" := c, "t2" := c], "t1");
    LogsInAtTheEpoch(map["t2" := c], "t2");
    assert map["t1" := c, "t2" := c] - {"t1"} == map["t2" := c];
    hide Next, Run, AcceptedCounters, Enrolment, Reaches, EpochConfig, ToAnn, ByAnn;
    var e4 := [ToAnn("t0"), ByAnn("t0"), ToAnn("t1"), ToAnn("t2")];
    var e5 := [ToAnn("t0"), ByAnn("t0"), ToAnn("t1"), ToAnn("t2"), ByAnn("t1")];
    Later(cfg, e4, ByAnn("t1"), e5, Enrolment(map["t1" := c, "t2" := c]), [-1], Enrolment(map["t2" := c]),
          ByCode("ann", -1));
    assert [-1] + [-1] == [-1, -1];
    Again(cfg, e5, ByAnn("t2"), Enrolment(map["t2" := c]), Enrolment(map["t2" := c] - {"t2"}));
    assert e5 + [ByAnn("t2")] == [ToAnn("t0"), ByAnn("t0"), ToAnn("t1"), ToAnn("t2"), ByAnn("t1"), ByAnn("t2")];
  }

  lemma Again(cfg: Config, before: seq<Event>, e: Event, r: Repo, r': Repo)
    requires Reaches(cfg, before, r, [-1, -1]) && Next(cfg, r, e) == (r', ByCode("ann", -1))
    ensures AcceptedCounters(cfg, before + [e], "ann") == [-1, -1, -1]
  {
    hide Next, Run, AcceptedCounters;
    Later(cfg, before, e, before + [e], r, [-1, -1], r', ByCode("ann", -1));
  }

  /** The enrolment, and two challenges begun after it. */
  lemma TwoChallenges()
    ensures Reaches(EpochConfig(), [ToAnn("t0"), ByAnn("t0"), ToAnn("t1"), ToAnn("t2")],
                    Enrolment(map["t1" := Challenge("ann", None, 1), "t2" := Challenge("ann", None, 1)]), [-1])
  {
    var cfg := EpochConfig();
    var c := Challenge("ann", None, 1);
    EnrolledAtTheEpoch();
    BeginsAtTheEpoch(map[], "t1");
    BeginsAtTheEpoch(map["t1" := c], "t2");
    hide Next, Run, AcceptedCounters, Reaches, Enrolment, EpochConfig, ToAnn, ByAnn;
    var e2, e3 := [ToAnn("t0"), ByAnn("t0")], [ToAnn("t0"), ByAnn("t0"), ToAnn("t1")];
    Later(cfg, e2, ToAnn("t1"), e3, Enrolment(map[]), [-1], Enrolment(map["t1" := c]), Refused);
    Later(cfg, e3, ToAnn("t2"), [ToAnn("t0"), ByAnn("t0"), ToAnn("t1"), ToAnn("t2")], Enrolment(map["t1" := c]), [-1],
          Enrolment(map["t1" := c, "t2" := c]), Refused);
  }

  lemma EnrolledAtTheEpoch()
    ensures Reaches(EpochConfig(), [ToAnn("t0"), ByAnn("t0")], Enrolment(map[]), [-1])
  {
    var cfg := EpochConfig();
    var r1 := NOBODY.(challenges := map["t0" := Challenge("ann", Some([]), 1)]);
    assert Reaches(cfg, [], NOBODY, []);
    EnrolsAtTheEpoch();
    hide LoginStep, Run, AcceptedCounters, Reaches;
    Later(cfg, [], ToAnn("t0"), [ToAnn("t0")], NOBODY, [], r1, Refused);
    Later(cfg, [ToAnn("t0")], ByAnn("t0"), [ToAnn("t0"), ByAnn("t0")], r1, [], Enrolment(map[]), Enrolled("ann", -1));
  }

  lemma LogsInAtTheEpoch(challenges: map<string, Challenge>, token: string)
    requires token in challenges && challenges[token] == Challenge("ann", None, 1)
    ensures Next(EpochConfig(), Enrolment(challenges), ByAnn(token))
         == (Enrolment(challenges - {token}), ByCode("ann", -1))
  {
    MatchedAtTheEpoch(EpochConfig());
    hide Matched;
  }

  lemma BeginsAtTheEpoch(challenges: map<string, Challenge>, token: string)
    ensures Next(EpochConfig(), Enrolment(challenges), ToAnn(token))
         == (Enrolment(challenges[token := Challenge("ann", None, 1)]), Refused)
  {}

  lemma EnrolsAtTheEpoch()
    ensures LoginStep(EpochConfig(), NOBODY.(challenges := map["t0" := Challenge("ann", Some([]), 1)]), "t0", "000000",
                      true, {}, 0)
         == (Enrolment(map[]), Enrolled("ann", -1))
  {
    MatchedAtTheEpoch(EpochConfig());
    hide Matched;
    assert map["t0" := Challenge("ann", Some([]), 1)] - {"t0"} == map[];
  }

  lemma MatchedAtTheEpoch(cfg: Config)
    requires cfg.mac == StepDigest
    ensures Matched(cfg, [], "000000", 0) == Some(-1)
  {
    hide TotpCode, Atoi, Trimmed;
    ZeroTrimmed();
    StepCodesDiffer(cfg);
    ZeroCode();
  }

  lemma ZeroTrimmed()
    ensures Trimmed("000000") == "000000"
  {}

  lemma StepCodesDiffer(cfg: Config)
    requires cfg.mac == StepDigest
    ensures TotpCode(cfg, [], -1) == 0 && TotpCode(cfg, [], 0) == 843009
  {
    DigestCodes();
    assert Int64(0) != Int64(-1) by { Int64RoundTrip(0); Int64RoundTrip(-1); }
    hide Truncate, Int64;
  }

  lemma DigestCodes()
    ensures Truncate(StepDigest([], Int64(-1))) == 0
    ensures Int64(0) != Int64(-1) ==> Truncate(StepDigest([], Int64(0))) == 843009
  {
    assert (1 % 128) * 0x100_0000 + 1 * 0x1_0000 + 1 * 0x100 + 1 == 16843009;
    hide Int64;
  }

  lemma {:induction false} Zeros(s: string)
    requires forall i :: 0 <= i < |s| ==> s[i] == '0'
    ensures Digits(s) && Decimal(s) == 0
  {
    if s != "" { Zeros(s[..|s| - 1]); }
  }

  lemma ZeroCode()
    ensures Atoi("000000") == Some(0)
  {
    Zeros("000000");
    hide Decimal;
  }

  // --- Challenges and recovery codes work once --------------------------------

  function Issued(events: seq<Event>, token: string): nat {
    if events == [] then 0
    else
      var e := events[|events| - 1];
      Issued(events[..|events| - 1], token) + if e.Begin? && e.token == token then 1 else 0
  }

  function Redeemed(cfg: Config, events: seq<Event>, token: string): nat {
    if events == [] then 0
    else
      var e := events[|events| - 1];
      Redeemed(cfg, events[..|events| - 1], token) + if e.Login? && e.token == token &&
      Last(cfg, events) != Refused then 1 else 0
  }

  lemma StepChallenges(cfg: Config, r: Repo, e: Event, token: string)
    ensures
      var (r', v) := Next(cfg, r, e);
      && (token in r'.challenges ==> token in r.challenges || (e.Begin? && e.token == token))
      && (e.Login? && e.token == token && v != Refused ==> token in r.challenges && token !in r'.challenges)
  {
    hide Matched, Unused;
  }

  /** A challenge token succeeds at most as often as it was issued: random tokens are issued
      once, so at most once. */
  lemma {:induction false} ChallengesOnce(cfg: Config, events: seq<Event>, token: string)
    ensures Redeemed(cfg, events, token) + (if token in Run(cfg, events).challenges then 1
                                            else 0) <= Issued(events, token)
  {
    if events != [] {
      hide Next;
      ChallengesOnce(cfg, events[..|events| - 1], token);
      StepChallenges(cfg, Run(cfg, events[..|events| - 1]), events[|events| - 1], token);
    }
  }

  function RecoveredWith(cfg: Config, events: seq<Event>, user: string, code: string): nat {
    if events == [] then 0
    else RecoveredWith(cfg, events[..|events| - 1], user, code) + if Last(cfg, events) == ByRecovery(user, code) then 1
        else 0
  }

  predicate Used(r: Repo, user: string, code: string) {
    user in r.codes && code in r.codes[user] && r.codes[user][code]
  }

  predicate CodesBelong(r: Repo) { forall u :: u in r.codes ==> u in r.configs }

  lemma StepCodes(cfg: Config, r: Repo, e: Event, user: string, code: string)
    requires CodesBelong(r)
    ensures
      var (r', v) := Next(cfg, r, e);
      && CodesBelong(r')
      && (Used(r, user, code) ==> Used(r', user, code) && v != ByRecovery(user, code))
      && (v == ByRecovery(user, code) ==> Used(r', user, code))
  {
    hide Matched;
  }

  /** Each recovery code of a user gets one login at most. */
  lemma {:induction false} RecoveryOnce(cfg: Config, events: seq<Event>, user: string, code: string)
    ensures RecoveredWith(cfg, events, user, code) <= 1
    ensures RecoveredWith(cfg, events, user, code) == 1 ==> Used(Run(cfg, events), user, code)
    ensures CodesBelong(Run(cfg, events))
  {
    if events != [] {
      hide Next, Used, CodesBelong;
      RecoveryOnce(cfg, events[..|events| - 1], user, code);
      StepCodes(cfg, Run(cfg, events[..|events| - 1]), events[|events| - 1], user, code);
    }
  }
}
