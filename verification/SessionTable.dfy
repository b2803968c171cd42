/**
 * The session table of the ChatGPT bridge: records are swept lazily, when a call happens to look at them.
 * The reference drops every session the moment it has been idle for longer than the time to live.
 */
module SessionTable {
  import opened Options

  datatype Session = Session(credentialHash: string, lastActiveAt: int, revoked: bool)

  type Sessions = map<string, Session>

  datatype Config = Config(ttlMs: nat, maxActive: nat)

  /** A call at clock reading `now`. A credential is the hash of the one the header resolved to, if any. */
  datatype Call =
    | Create(credential: Option<string>, mintedId: string, now: int)
    | Validate(presentedId: Option<string>, credential: Option<string>, now: int)
    | Revoke(id: Option<string>, now: int)
    | RevokeAll(now: int)
    | IsActive(queriedId: string, now: int)
    | Count(now: int)

  datatype Answer =
    | Created(id: string)
    | Valid(credentialHash: string)
    | Unauthenticated
    | InvalidSession
    | Revoked(found: bool)
    | Done
    | Active(active: bool)
    | Counted(n: nat)

  predicate IsIdChar(c: char) {
    'a' <= c <= 'z' || 'A' <= c <= 'Z' || '0' <= c <= '9' || c == '_' || c == '-'
  }

  /** The format a presented session id must have. */
  predicate WellFormedId(id: string) {
    1 <= |id| <= 64 && forall i :: 0 <= i < |id| ==> IsIdChar(id[i])
  }

  predicate Expired(cfg: Config, s: Session, now: int) {
    now - s.lastActiveAt > cfg.ttlMs
  }

  /** The sessions still alive at `now`. */
  function Live(cfg: Config, t: Sessions, now: int): Sessions {
    map id | id in t && !t[id].revoked && !Expired(cfg, t[id], now) :: t[id]
  }

  // ----- the lazy table --------------------------------------------------------

  function CreateStep(cfg: Config, t: Sessions, credential: Option<string>, id: string, now: int): (Sessions, Answer) {
    if credential.None? then (t, Unauthenticated)
    else
      var swept := Live(cfg, t, now);
      if |swept| >= cfg.maxActive then (swept, Unauthenticated)
      else (swept[id := Session(credential.value, now, false)], Created(id))
  }

  function ValidateStep(cfg: Config, t: Sessions, presented: Option<string>, credential: Option<string>, now: int)
    : (Sessions, Answer)
  {
    if presented.None? || !WellFormedId(presented.value) then (t, InvalidSession)
    else if credential.None? then (t, Unauthenticated)
    else
      var id := presented.value;
      if id !in t || t[id].revoked then (t, InvalidSession)
      else if Expired(cfg, t[id], now) then (t - {id}, InvalidSession)
      else if t[id].credentialHash != credential.value then (t - {id}, Unauthenticated)
      else (t[id := t[id].(lastActiveAt := now)], Valid(t[id].credentialHash))
  }

  function IsActiveStep(cfg: Config, t: Sessions, id: string, now: int): (Sessions, Answer) {
    if id !in t || t[id].revoked then (t, Active(false))
    else if Expired(cfg, t[id], now) then (t - {id}, Active(false))
    else (t, Active(true))
  }

  function Step(cfg: Config, t: Sessions, call: Call): (Sessions, Answer) {
    match call
    case Create(credential, id, now) => CreateStep(cfg, t, credential, id, now)
    case Validate(presented, credential, now) => ValidateStep(cfg, t, presented, credential, now)
    case Revoke(id, _) =>
      if id.None? || id.value == "" || id.value !in t then (t, Revoked(false)) else (t - {id.value}, Revoked(true))
    case RevokeAll(_) => (map[], Done)
    case IsActive(id, now) => IsActiveStep(cfg, t, id, now)
    case Count(now) => (Live(cfg, t, now), Counted(|Live(cfg, t, now)|))
  }

  function Run(cfg: Config, t: Sessions, calls: seq<Call>): (Sessions, seq<Answer>)
    decreases |calls|
  {
    if calls == [] then (t, [])
    else
      var (t', a) := Step(cfg, t, calls[0]);
      var (end, answers) := Run(cfg, t', calls[1..]);
      (end, [a] + answers)
  }

  // ----- the reference ---------------------------------------------------------

  /** One call on a table that holds live sessions only: nothing in it ever needs an expiry check. */
  function EagerStep(cfg: Config, live: Sessions, call: Call): (Sessions, Answer) {
    match call
    case Create(credential, id, now) =>
      if credential.None? || |live| >= cfg.maxActive then (live, Unauthenticated)
      else (live[id := Session(credential.value, now, false)], Created(id))
    case Validate(presented, credential, now) =>
      if presented.None? || !WellFormedId(presented.value) then (live, InvalidSession)
      else if credential.None? then (live, Unauthenticated)
      else
        var id := presented.value;
        if id !in live then (live, InvalidSession)
        else if live[id].credentialHash != credential.value then (live - {id}, Unauthenticated)
        else (live[id := live[id].(lastActiveAt := now)], Valid(live[id].credentialHash))
    case Revoke(id, _) =>
      if id.None? || id.value == "" || id.value !in live then (live, Revoked(false))
      else (live - {id.value}, Revoked(true))
    case RevokeAll(_) => (map[], Done)
    case IsActive(id, _) => (live, Active(id in live))
    case Count(_) => (live, Counted(|live|))
  }

  /** Time passes first: whatever has been idle for too long by `now` is gone. */
  function EagerRun(cfg: Config, t: Sessions, calls: seq<Call>): seq<Answer>
    decreases |calls|
  {
    if calls == [] then []
    else
      var (t', a) := EagerStep(cfg, Live(cfg, t, calls[0].now), calls[0]);
      [a] + EagerRun(cfg, t', calls[1..])
  }

  // ----- what every call keeps -------------------------------------------------

  /** No stored record is marked revoked, no activity lies in the future, and the cap holds. */
  ghost predicate Sound(cfg: Config, t: Sessions, now: int) {
    && |t| <= cfg.maxActive
    && forall id :: id in t ==> !t[id].revoked && t[id].lastActiveAt <= now
  }

  ghost predicate Chronological(calls: seq<Call>, now: int) {
    calls == [] || (now <= calls[0].now && Chronological(calls[1..], calls[0].now))
  }

  /** Minted ids are new. */
  ghost predicate Fresh(calls: seq<Call>, used: set<string>) {
    calls == [] ||
    (if calls[0].Create? then calls[0].mintedId !in used && Fresh(calls[1..], used + {calls[0].mintedId})
     else Fresh(calls[1..], used))
  }

  lemma LiveIsSmaller(cfg: Config, t: Sessions, now: int)
    ensures |Live(cfg, t, now)| <= |t|
  {
    SubmapIsSmaller(Live(cfg, t, now), t);
  }

  lemma SubsetIsSmaller(a: set<string>, b: set<string>)
    requires a <= b
    ensures |a| <= |b|
  {
    assert b == a + (b - a);
  }

  lemma SubmapIsSmaller(a: Sessions, b: Sessions)
    requires a.Keys <= b.Keys
    ensures |a| <= |b|
  {
    SubsetIsSmaller(a.Keys, b.Keys);
    assert |a| == |a.Keys| && |b| == |b.Keys|;
  }

  lemma AddGrowsByOne(t: Sessions, id: string, s: Session)
    ensures |t[id := s]| <= |t| + 1 && (id in t ==> |t[id := s]| == |t|)
  {
    assert t[id := s].Keys == t.Keys + {id};
  }

  lemma DropKeeps(cfg: Config, t: Sessions, id: string, now: int)
    requires Sound(cfg, t, now)
    ensures Sound(cfg, t - {id}, now)
  {
    SubmapIsSmaller(t - {id}, t);
  }

  lemma LiveKeeps(cfg: Config, t: Sessions, now: int)
    requires Sound(cfg, t, now)
    ensures Sound(cfg, Live(cfg, t, now), now)
  {
    LiveIsSmaller(cfg, t, now);
  }

  lemma PutKeeps(cfg: Config, t: Sessions, id: string, s: Session, now: int)
    requires Sound(cfg, t, now) && !s.revoked && s.lastActiveAt <= now && (id in t || |t| < cfg.maxActive)
    ensures Sound(cfg, t[id := s], now)
  {
    AddGrowsByOne(t, id, s);
  }

  lemma CreateKeeps(cfg: Config, t: Sessions, credential: Option<string>, id: string, now: int)
    requires Sound(cfg, t, now)
    ensures Sound(cfg, CreateStep(cfg, t, credential, id, now).0, now)
  {
    LiveKeeps(cfg, t, now);
    if credential.Some? && |Live(cfg, t, now)| < cfg.maxActive {
      PutKeeps(cfg, Live(cfg, t, now), id, Session(credential.value, now, false), now);
    }
  }

  lemma ValidateKeeps(cfg: Config, t: Sessions, presented: Option<string>, credential: Option<string>, now: int)
    requires Sound(cfg, t, now)
    ensures Sound(cfg, ValidateStep(cfg, t, presented, credential, now).0, now)
  {
    if presented.Some? && presented.value in t {
      PutKeeps(cfg, t, presented.value, t[presented.value].(lastActiveAt := now), now);
      DropKeeps(cfg, t, presented.value, now);
    }
  }

  lemma StepKeeps(cfg: Config, t: Sessions, call: Call, now: int)
    requires Sound(cfg, t, now) && now <= call.now
    ensures Sound(cfg, Step(cfg, t, call).0, call.now)
  {
    match call
    case Create(credential, id, at) => CreateKeeps(cfg, t, credential, id, at);
    case Validate(presented, credential, at) => ValidateKeeps(cfg, t, presented, credential, at);
    case Revoke(id, at) => if id.Some? { DropKeeps(cfg, t, id.value, at); }
    case RevokeAll(_) =>
    case IsActive(id, at) => DropKeeps(cfg, t, id, at);
    case Count(at) => LiveKeeps(cfg, t, at);
  }

  /** In every run the size never exceeds the cap and no stored record is marked revoked. */
  lemma {:induction false} RunKeeps(cfg: Config, t: Sessions, calls: seq<Call>, now: int) returns (end: int)
    requires Sound(cfg, t, now) && Chronological(calls, now)
    ensures now <= end && Sound(cfg, Run(cfg, t, calls).0, end)
    decreases |calls|
  {
    if calls == [] {
      end := now;
    } else {
      StepKeeps(cfg, t, calls[0], now);
      end := RunKeeps(cfg, Step(cfg, t, calls[0]).0, calls[1..], calls[0].now);
    }
  }

  // ----- lazy and eager answer alike -------------------------------------------

  /** Equal answers, leaving aside whether a revocation found anything. */
  predicate SameAnswer(a: Answer, b: Answer) {
    a == b || (a.Revoked? && b.Revoked?)
  }

  ghost predicate SameAnswers(a: seq<Answer>, b: seq<Answer>) {
    |a| == |b| && forall i :: 0 <= i < |a| ==> SameAnswer(a[i], b[i])
  }

  lemma LiveTwice(cfg: Config, t: Sessions, now: int, later: int)
    requires now <= later
    ensures Live(cfg, Live(cfg, t, now), later) == Live(cfg, t, later)
  {
  }

  /** One call: the same answer, and the same sessions alive afterwards. */
  lemma StepAgrees(cfg: Config, t: Sessions, call: Call)
    ensures var live := Live(cfg, t, call.now);
      && SameAnswer(Step(cfg, t, call).1, EagerStep(cfg, live, call).1)
      && Live(cfg, Step(cfg, t, call).0, call.now) == Live(cfg, EagerStep(cfg, live, call).0, call.now)
  {
    LiveTwice(cfg, t, call.now, call.now);
  }

  /** The boolean of `revokeSession` differs exactly when the session is still stored but has expired. */
  lemma RevokeAnswersDiffer(cfg: Config, t: Sessions, id: Option<string>, now: int)
    requires forall i :: i in t ==> !t[i].revoked
    ensures Step(cfg, t, Revoke(id, now)).1 != EagerStep(cfg, Live(cfg, t, now), Revoke(id, now)).1
       <==> id.Some? && id.value != "" && id.value in t && Expired(cfg, t[id.value], now)
  {
  }

  lemma {:induction false} RunsAgree(cfg: Config, lazy: Sessions, eager: Sessions, calls: seq<Call>, now: int)
    requires Chronological(calls, now) && Live(cfg, lazy, now) == Live(cfg, eager, now)
    ensures SameAnswers(Run(cfg, lazy, calls).1, EagerRun(cfg, eager, calls))
    decreases |calls|
  {
    if calls != [] {
      var at := calls[0].now;
      LiveTwice(cfg, lazy, now, at);
      LiveTwice(cfg, eager, now, at);
      StepAgrees(cfg, lazy, calls[0]);
      RunsAgree(cfg, Step(cfg, lazy, calls[0]).0, EagerStep(cfg, Live(cfg, eager, at), calls[0]).0, calls[1..], at);
    }
  }

  /** Every run of calls is answered as by a table that drops each session the moment it is idle for too long. */
  lemma LazyIsEager(cfg: Config, calls: seq<Call>, now: int)
    requires Chronological(calls, now)
    ensures SameAnswers(Run(cfg, map[], calls).1, EagerRun(cfg, map[], calls))
  {
    RunsAgree(cfg, map[], map[], calls, now);
  }

  // ----- a dead id stays dead --------------------------------------------------

  ghost predicate Dead(cfg: Config, t: Sessions, id: string, now: int) {
    id !in Live(cfg, t, now)
  }

  lemma DeadStep(cfg: Config, t: Sessions, id: string, call: Call, now: int)
    requires Dead(cfg, t, id, now) && now <= call.now && (call.Create? ==> call.mintedId != id)
    ensures Dead(cfg, Step(cfg, t, call).0, id, call.now)
    ensures call.Validate? && call.presentedId == Some(id) ==> !Step(cfg, t, call).1.Valid?
    ensures call.IsActive? && call.queriedId == id ==> Step(cfg, t, call).1 == Active(false)
  {
  }

  /** Once an id that was minted before is expired, revoked or dropped, no later call accepts it. */
  lemma {:induction false} DeadStaysDead(cfg: Config, t: Sessions, id: string, calls: seq<Call>, now: int,
                                         used: set<string>, k: nat)
    requires Dead(cfg, t, id, now) && id in used && Chronological(calls, now) && Fresh(calls, used) && k < |calls|
    ensures |Run(cfg, t, calls).1| == |calls|
    ensures calls[k].Validate? && calls[k].presentedId == Some(id) ==> !Run(cfg, t, calls).1[k].Valid?
    ensures calls[k].IsActive? && calls[k].queriedId == id ==> Run(cfg, t, calls).1[k] == Active(false)
    decreases |calls|
  {
    var call := calls[0];
    DeadStep(cfg, t, id, call, now);
    AnswersForAll(cfg, t, calls);
    if k > 0 {
      DeadStaysDead(cfg, Step(cfg, t, call).0, id, calls[1..], call.now,
                    if call.Create? then used + {call.mintedId} else used, k - 1);
    }
  }

  lemma {:induction false} AnswersForAll(cfg: Config, t: Sessions, calls: seq<Call>)
    ensures |Run(cfg, t, calls).1| == |calls|
    decreases |calls|
  {
    if calls != [] {
      AnswersForAll(cfg, Step(cfg, t, calls[0]).0, calls[1..]);
    }
  }

  // ----- the answers, on the fields of the stored sessions ----------------------

  /** Sessions that were active within the time to live. */
  ghost function Alive(cfg: Config, t: Sessions, now: int): set<string> {
    set id | id in t && now <= t[id].lastActiveAt + cfg.ttlMs
  }

  lemma AliveIsLive(cfg: Config, t: Sessions, now: int)
    requires Sound(cfg, t, now)
    ensures Alive(cfg, t, now) == Live(cfg, t, now).Keys && |Alive(cfg, t, now)| == |Live(cfg, t, now)|
  {
    assert Alive(cfg, t, now) == Live(cfg, t, now).Keys;
  }

  /** A session is created exactly for a known credential while fewer than `maxActive` are alive, and is then stored
      as active now; the count is that of the sessions alive. */
  lemma CreatesExactly(cfg: Config, t: Sessions, credential: Option<string>, id: string, now: int)
    requires Sound(cfg, t, now)
    ensures var (t', answer) := Step(cfg, t, Create(credential, id, now));
      && (answer == Created(id) <==> credential.Some? && |Alive(cfg, t, now)| < cfg.maxActive)
      && (answer.Created? ==> id in t' && t'[id].credentialHash == credential.value && t'[id].lastActiveAt == now)
      && (!answer.Created? ==> answer == Unauthenticated)
    ensures Step(cfg, t, Count(now)).1 == Counted(|Alive(cfg, t, now)|)
  {
    AliveIsLive(cfg, t, now);
  }

  /** A session validates exactly when its id is well formed and stored, it was active within the time to live and the
      credential is its own; that keeps it active from now on, and another credential ends it. */
  lemma ValidatesExactly(cfg: Config, t: Sessions, id: string, credential: Option<string>, now: int)
    requires Sound(cfg, t, now)
    ensures var (t', answer) := Step(cfg, t, Validate(Some(id), credential, now));
      && (answer.Valid? <==>
            && WellFormedId(id) && id in t && now <= t[id].lastActiveAt + cfg.ttlMs
            && credential == Some(t[id].credentialHash))
      && (answer.Valid? ==> id in t' && t'[id] == Session(credential.value, now, false) && t' - {id} == t - {id})
      && (WellFormedId(id) && credential.Some? && id in t && credential != Some(t[id].credentialHash) ==> id !in t')
  {
  }

  /** A revocation removes that session and no other, and says whether it was stored; revoking all leaves none; and a
      session is active exactly when it is stored and was active within the time to live. */
  lemma RevokesExactly(cfg: Config, t: Sessions, id: string, now: int)
    requires Sound(cfg, t, now) && id != ""
    ensures var (t', answer) := Step(cfg, t, Revoke(Some(id), now));
      t' == t - {id} && answer == Revoked(id in t)
    ensures Step(cfg, t, RevokeAll(now)).0 == map[]
    ensures Step(cfg, t, IsActive(id, now)).1 == Active(id in t && now <= t[id].lastActiveAt + cfg.ttlMs)
  {
    assert id !in t ==> t - {id} == t;
  }

  ghost predicate Untouched(calls: seq<Call>, id: string) {
    forall i :: 0 <= i < |calls| ==>
      !(calls[i].Create? && calls[i].mintedId == id) && !(calls[i].Validate? && calls[i].presentedId == Some(id))
  }

  lemma StepLeavesIt(cfg: Config, t: Sessions, call: Call, id: string)
    requires Untouched([call], id)
    ensures var t' := Step(cfg, t, call).0; id in t' ==> id in t && t'[id] == t[id]
  {
    assert [call][0] == call;
  }

  lemma {:induction false} RunLeavesIt(cfg: Config, t: Sessions, calls: seq<Call>, id: string)
    requires Untouched(calls, id)
    ensures var t' := Run(cfg, t, calls).0; id in t' ==> id in t && t'[id] == t[id]
    decreases |calls|
  {
    if calls != [] {
      assert calls[0] == calls[..1][0];
      StepLeavesIt(cfg, t, calls[0], id);
      RunLeavesIt(cfg, Step(cfg, t, calls[0]).0, calls[1..], id);
    }
  }

  /** A session that was last active at some time, and has not been presented since, is refused, inactive and not
      counted at every moment more than the time to live later, whatever calls come between. */
  lemma IdleSessionIsOver(cfg: Config, t: Sessions, id: string, calls: seq<Call>, now: int, later: int,
                          credential: Option<string>)
    requires Sound(cfg, t, now) && Chronological(calls, now) && Untouched(calls, id)
    requires id in t ==> later > t[id].lastActiveAt + cfg.ttlMs
    ensures var t' := Run(cfg, t, calls).0;
      && !Step(cfg, t', Validate(Some(id), credential, later)).1.Valid?
      && Step(cfg, t', IsActive(id, later)).1 == Active(false)
      && id !in Step(cfg, t', Count(later)).0
  {
    RunLeavesIt(cfg, t, calls, id);
  }

  // ----- minted ids ------------------------------------------------------------

  predicate IsHex(s: string) {
    forall i :: 0 <= i < |s| ==> '0' <= s[i] <= '9' || 'a' <= s[i] <= 'f'
  }

  /** The prefixes the constructor admits. */
  predicate AdmittedPrefix(p: string) {
    && 1 <= |p| <= 32 && 'a' <= p[0] <= 'z'
    && forall i :: 0 <= i < |p| ==> 'a' <= p[i] <= 'z' || '0' <= p[i] <= '9' || p[i] == '-'
  }

  function Minted(prefix: string, random: string): string {
    prefix + "-" + random
  }

  /** A minted id passes the format check of a later call exactly when its prefix has at most 31 characters. */
  lemma MintedIdIsWellFormed(prefix: string, random: string)
    requires AdmittedPrefix(prefix) && |random| == 32 && IsHex(random)
    ensures WellFormedId(Minted(prefix, random)) <==> |prefix| <= 31
  {
    var id := Minted(prefix, random);
    forall i | 0 <= i < |id| ensures IsIdChar(id[i]) {
      if i < |prefix| {
        assert id[i] == prefix[i];
      } else if i > |prefix| {
        assert id[i] == random[i - |prefix| - 1];
      }
    }
  }

  /** A session minted under the longest admitted prefix never validates. */
  lemma LongestPrefixNeverValidates(cfg: Config, t: Sessions, prefix: string, random: string,
                                    credential: Option<string>, now: int)
    requires AdmittedPrefix(prefix) && |prefix| == 32 && |random| == 32 && IsHex(random)
    ensures Step(cfg, t, Validate(Some(Minted(prefix, random)), credential, now)).1 == InvalidSession
  {
    MintedIdIsWellFormed(prefix, random);
  }

  /** It is nevertheless stored: for as long as it lives it is active, takes one of the counted places and can be
      revoked, none of which looks at the format of the id, while validation refuses it whatever the credential. */
  lemma LongestPrefixIsStored(cfg: Config, t: Sessions, prefix: string, random: string, credential: string, now: int,
                              presented: Option<string>, later: int)
    requires AdmittedPrefix(prefix) && |prefix| == 32 && |random| == 32 && IsHex(random)
    requires |Live(cfg, t, now)| < cfg.maxActive && now <= later <= now + cfg.ttlMs
    ensures var id := Minted(prefix, random);
      var (t', answer) := Step(cfg, t, Create(Some(credential), id, now));
      && answer == Created(id)
      && Step(cfg, t', IsActive(id, later)) == (t', Active(true))
      && id in Step(cfg, t', Count(later)).0
      && Step(cfg, t', Count(later)).1 == Counted(|Live(cfg, t', later) - {id}| + 1)
      && Step(cfg, t', Revoke(Some(id), later)) == (t' - {id}, Revoked(true))
      && Step(cfg, t', Validate(Some(id), presented, later)) == (t', InvalidSession)
  {
    var id := Minted(prefix, random);
    var t' := Step(cfg, t, Create(Some(credential), id, now)).0;
    var live := Live(cfg, t', later);
    assert id in live;
    assert (live - {id}).Keys == live.Keys - {id};
    MintedIdIsWellFormed(prefix, random);
  }

  // ----- the object ------------------------------------------------------------

  class SessionBridge {
    const cfg: Config
    var sessions: Sessions

    constructor (cfg: Config)
      ensures this.cfg == cfg && sessions == map[]
    {
      this.cfg := cfg;
      sessions := map[];
    }

    /** Keeps exactly the sessions still alive. */
    method SweepExpiredSessions(now: int)
      modifies this
      ensures sessions == Live(cfg, old(sessions), now)
    {
      var before := sessions;
      var rest := sessions.Keys;
      while rest != {}
        invariant rest <= before.Keys
        invariant sessions.Keys <= before.Keys && forall id :: id in sessions ==> sessions[id] == before[id]
        invariant forall id :: id in rest ==> id in sessions
        invariant forall id :: id in before && id !in rest ==>
          (id in sessions <==> !before[id].revoked && !Expired(cfg, before[id], now))
        decreases |rest|
      {
        var id :| id in rest;
        var session := sessions[id];
        if session.revoked || now - session.lastActiveAt > cfg.ttlMs {
          sessions := sessions - {id};
        }
        rest := rest - {id};
      }
      assert sessions == Live(cfg, before, now);
    }

    method CreateSession(credential: Option<string>, mintedId: string, now: int) returns (answer: Answer)
      modifies this
      ensures (sessions, answer) == Step(cfg, old(sessions), Create(credential, mintedId, now))
    {
      if credential.None? {
        return Unauthenticated;
      }
      SweepExpiredSessions(now);
      if |sessions| >= cfg.maxActive {
        return Unauthenticated;
      }
      sessions := sessions[mintedId := Session(credential.value, now, false)];
      return Created(mintedId);
    }

    method ValidateSession(presentedId: Option<string>, credential: Option<string>, now: int) returns (answer: Answer)
      modifies this
      ensures (sessions, answer) == Step(cfg, old(sessions), Validate(presentedId, credential, now))
    {
      if presentedId.None? || !WellFormedId(presentedId.value) {
        return InvalidSession;
      }
      if credential.None? {
        return Unauthenticated;
      }
      var id := presentedId.value;
      if id !in sessions || sessions[id].revoked {
        return InvalidSession;
      }
      if now - sessions[id].lastActiveAt > cfg.ttlMs {
        sessions := sessions - {id};
        return InvalidSession;
      }
      if sessions[id].credentialHash != credential.value {
        sessions := sessions - {id};
        return Unauthenticated;
      }
      sessions := sessions[id := sessions[id].(lastActiveAt := now)];
      return Valid(sessions[id].credentialHash);
    }

    method RevokeSession(id: Option<string>, now: int) returns (answer: Answer)
      modifies this
      ensures (sessions, answer) == Step(cfg, old(sessions), Revoke(id, now))
    {
      if id.None? || id.value == "" {
        return Revoked(false);
      }
      if id.value in sessions {
        sessions := sessions - {id.value};
        return Revoked(true);
      }
      return Revoked(false);
    }

    method RevokeAllSessions(now: int)
      modifies this
      ensures (sessions, Done) == Step(cfg, old(sessions), RevokeAll(now))
    {
      sessions := map[];
    }

    method IsSessionActive(id: string, now: int) returns (active: bool)
      modifies this
      ensures (sessions, Active(active)) == Step(cfg, old(sessions), IsActive(id, now))
    {
      if id !in sessions || sessions[id].revoked {
        return false;
      }
      if now - sessions[id].lastActiveAt > cfg.ttlMs {
        sessions := sessions - {id};
        return false;
      }
      return true;
    }

    method GetActiveSessionCount(now: int) returns (n: nat)
      modifies this
      ensures (sessions, Counted(n)) == Step(cfg, old(sessions), Count(now))
    {
      SweepExpiredSessions(now);
      n := |sessions|;
    }
  }
}
