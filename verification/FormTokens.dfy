/** Employer form tokens: one Redis keyspace holding a forward pointer per phone,
    an identity per token and the job drafts staged under tokens. Any number of
    `ensure_employer_token` calls interleave at every await: each Redis command is
    a step of its own, and time passes between them. */
module FormTokens {
  import opened Options
  import opened Phones
  import opened PyText

  datatype Value =
    | TokenOf(token: string)
    | Identity(tenant: string, phone: string, conversation: string, name: string)
    | Draft(job: string)

  datatype Entry = Entry(value: Value, expires: int)

  datatype Owner = Owner(tenant: string, digits: string)

  /** Where a request is: about to read the pointer, to write a new one, to write
      the identity, or to extend the pointer. `bound` is when it wrote the identity. */
  datatype Pc =
    | Ready
    | Minting
    | Binding(token: string)
    | Extending(token: string, bound: int)
    | Answered(token: string, bound: int)

  datatype Request = Request(
    tenant: string, phone: string, conversation: string, name: string, anew: bool, pc: Pc)

  /** `issued` is history: who each token was minted for. */
  datatype State = State(now: int, keys: map<string, Entry>, issued: map<string, Owner>, reqs: seq<Request>)

  // ----- the key builders -----

  function FwdKey(tenant: string, phone: string): string {
    "t:" + tenant + ":employer:" + Digits(phone) + ":token"
  }

  function TokenKey(token: string): string {
    "employer:token:" + token
  }

  function DraftKey(token: string): string {
    "employer:jobdraft:" + token
  }

  lemma TailsAgree(a: string, d: string, b: string, e: string)
    requires a + ":" + d == b + ":" + e
    requires (forall i :: 0 <= i < |d| ==> d[i] != ':') && forall i :: 0 <= i < |e| ==> e[i] != ':'
    ensures a == b && d == e
  {
    LastColonAfter(a, d);
    LastColonAfter(b, e);
    var s, t := a + ":" + d, b + ":" + e;
    assert a == s[..|a|] && b == t[..|b|];
    assert d == s[|a| + 1..] && e == t[|b| + 1..];
  }

  /** Forward keys of different employers never collide, whatever the tenant id holds. */
  lemma FwdKeyInjective(t1: string, p1: string, t2: string, p2: string)
    requires FwdKey(t1, p1) == FwdKey(t2, p2)
    ensures t1 == t2 && Digits(p1) == Digits(p2)
  {
    var a, b := "t:" + t1 + ":employer", "t:" + t2 + ":employer";
    var x, y := a + ":" + Digits(p1), b + ":" + Digits(p2);
    assert FwdKey(t1, p1) == x + ":token" && FwdKey(t2, p2) == y + ":token";
    assert |x| == |y|;
    assert x == FwdKey(t1, p1)[..|x|] && y == FwdKey(t2, p2)[..|y|];
    TailsAgree(a, Digits(p1), b, Digits(p2));
    assert t1 == a[2..2 + |t1|] && t2 == b[2..2 + |t2|];
  }

  /** And employers that are the same have one pointer, however the phone is written. */
  lemma FwdKeysEqualIff(t1: string, p1: string, t2: string, p2: string)
    ensures FwdKey(t1, p1) == FwdKey(t2, p2) <==> t1 == t2 && Digits(p1) == Digits(p2)
  {
    if FwdKey(t1, p1) == FwdKey(t2, p2) {
      FwdKeyInjective(t1, p1, t2, p2);
    }
  }

  /** The three key families are disjoint and each is injective. */
  lemma FamiliesDisjoint(tenant: string, phone: string, x: string, y: string)
    ensures FwdKey(tenant, phone) != TokenKey(x) && FwdKey(tenant, phone) != DraftKey(x) && TokenKey(x) != DraftKey(y)
    ensures TokenKey(x) == TokenKey(y) ==> x == y
    ensures DraftKey(x) == DraftKey(y) ==> x == y
  {
    assert FwdKey(tenant, phone)[0] == 't' && TokenKey(x)[0] == 'e' && DraftKey(x)[0] == 'e';
    assert TokenKey(x)[9] == 't' && DraftKey(y)[9] == 'j';
    assert TokenKey(x)[15..] == x && TokenKey(y)[15..] == y;
    assert DraftKey(x)[18..] == x && DraftKey(y)[18..] == y;
  }

  // ----- Redis commands -----

  predicate Live(s: State, key: string) {
    key in s.keys && s.now < s.keys[key].expires
  }

  function SetEx(s: State, key: string, ttl: int, v: Value): State {
    s.(keys := s.keys[key := Entry(v, s.now + ttl)])
  }

  function Expire(s: State, key: string, ttl: int): State {
    if Live(s, key) then s.(keys := s.keys[key := s.keys[key].(expires := s.now + ttl)]) else s
  }

  // ----- the steps -----

  datatype Action =
    | Read(p: nat)
    | Mint(p: nat, uuid: string)
    | Bind(p: nat)
    | Extend(p: nat)
    | StageDraft(token: string, job: string)
    | ClearDraft(token: string)
    | Tick(ticks: nat)

  function Fwd(r: Request): string {
    FwdKey(r.tenant, r.phone)
  }

  function Who(r: Request): Owner {
    Owner(r.tenant, Digits(r.phone))
  }

  function IdentityOf(r: Request): Value {
    Identity(r.tenant, r.phone, r.conversation, r.name)
  }

  /** `fresh=True` mints without reading. */
  predicate Enabled(s: State, a: Action) {
    match a
    case Read(p) => p < |s.reqs| && s.reqs[p].pc.Ready? && !s.reqs[p].anew
    case Mint(p, _) => p < |s.reqs| && (s.reqs[p].pc.Minting? || (s.reqs[p].pc.Ready? && s.reqs[p].anew))
    case Bind(p) => p < |s.reqs| && s.reqs[p].pc.Binding?
    case Extend(p) => p < |s.reqs| && s.reqs[p].pc.Extending?
    case _ => true
  }

  function Goto(s: State, p: nat, pc: Pc): State
    requires p < |s.reqs|
  {
    s.(reqs := s.reqs[p := s.reqs[p].(pc := pc)])
  }

  /** The token a live pointer holds, or the empty string. */
  function Held(s: State, fwd: string): string {
    if Live(s, fwd) && s.keys[fwd].value.TokenOf? then s.keys[fwd].value.token else ""
  }

  function Step(s: State, a: Action, ttl: int): State
    requires Enabled(s, a)
  {
    match a
    case Read(p) =>
      var held := Held(s, Fwd(s.reqs[p]));
      Goto(s, p, if held != "" then Binding(held) else Minting)
    case Mint(p, uuid) =>
      var r := s.reqs[p];
      Goto(SetEx(s, Fwd(r), ttl, TokenOf(uuid)).(issued := s.issued[uuid := Who(r)]), p, Binding(uuid))
    case Bind(p) =>
      var r := s.reqs[p];
      Goto(SetEx(s, TokenKey(r.pc.token), ttl, IdentityOf(r)), p, Extending(r.pc.token, s.now))
    case Extend(p) =>
      var r := s.reqs[p];
      Goto(Expire(s, Fwd(r), ttl), p, Answered(r.pc.token, r.pc.bound))
    case StageDraft(token, job) => SetEx(s, DraftKey(token), ttl, Draft(job))
    case ClearDraft(token) => s.(keys := s.keys - {DraftKey(token)})
    case Tick(n) => s.(now := s.now + n)
  }

  /** A minted uuid is new, and drafts are staged only under issued tokens. */
  predicate Proper(s: State, a: Action) {
    match a
    case Mint(_, uuid) => uuid !in s.issued && uuid != ""
    case StageDraft(token, _) => token in s.issued
    case _ => true
  }

  ghost predicate ProperRun(s: State, acts: seq<Action>, ttl: int)
    decreases |acts|
  {
    acts == [] || (Enabled(s, acts[0]) && Proper(s, acts[0]) && ProperRun(Step(s, acts[0], ttl), acts[1..], ttl))
  }

  ghost function Run(s: State, acts: seq<Action>, ttl: int): State
    requires ProperRun(s, acts, ttl)
    decreases |acts|
  {
    if acts == [] then s else Run(Step(s, acts[0], ttl), acts[1..], ttl)
  }

  // ----- what each step does to the keyspace -----

  /** Keys of one family move only by the steps that write it. */
  lemma StepKeys(s: State, a: Action, ttl: int, tenant: string, phone: string, token: string)
    requires Enabled(s, a)
    ensures var s', fwd, id, draft := Step(s, a, ttl), FwdKey(tenant, phone), TokenKey(token), DraftKey(token);
      && (fwd in s'.keys ==> fwd in s.keys || (a.Mint? && Fwd(s.reqs[a.p]) == fwd))
      && (fwd in s.keys ==> fwd in s'.keys)
      && (fwd in s'.keys && fwd in s.keys && s'.keys[fwd] != s.keys[fwd] ==>
          (a.Mint? || a.Extend?) && Fwd(s.reqs[a.p]) == fwd)
      && (fwd in s'.keys && fwd in s.keys && !a.Mint? ==> s'.keys[fwd].value == s.keys[fwd].value)
      && (fwd in s'.keys && a.Extend? && Fwd(s.reqs[a.p]) == fwd && Live(s, fwd) ==>
          s'.keys[fwd].expires == s.now + ttl)
      && (fwd in s'.keys && a.Extend? && !Live(s, fwd) ==> s'.keys[fwd] == s.keys[fwd])
      && (a.Mint? && Fwd(s.reqs[a.p]) == fwd ==> s'.keys[fwd] == Entry(TokenOf(a.uuid), s.now + ttl))
      && (if a.Bind? && s.reqs[a.p].pc.token == token then
            id in s'.keys && s'.keys[id] == Entry(IdentityOf(s.reqs[a.p]), s.now + ttl)
          else (id in s'.keys <==> id in s.keys) && (id in s.keys ==> s'.keys[id] == s.keys[id]))
      && (draft in s'.keys ==> draft in s.keys || (a.StageDraft? && a.token == token))
  {
    FamiliesDisjoint(tenant, phone, token, token);
    match a
    case Mint(p, _) =>
      FamiliesDisjoint(s.reqs[p].tenant, s.reqs[p].phone, token, token);
    case Bind(p) =>
      FamiliesDisjoint(tenant, phone, s.reqs[p].pc.token, token);
      FamiliesDisjoint(tenant, phone, token, s.reqs[p].pc.token);
    case Extend(p) =>
      FamiliesDisjoint(s.reqs[p].tenant, s.reqs[p].phone, token, token);
    case StageDraft(t, _) =>
      FamiliesDisjoint(tenant, phone, t, t);
      FamiliesDisjoint(tenant, phone, token, t);
    case ClearDraft(t) =>
      FamiliesDisjoint(tenant, phone, t, t);
      FamiliesDisjoint(tenant, phone, token, t);
    case _ =>
  }

  lemma StepRequests(s: State, a: Action, ttl: int, p: nat)
    requires Enabled(s, a) && p < |s.reqs|
    ensures var s' := Step(s, a, ttl);
      && |s'.reqs| == |s.reqs| && s'.reqs[p] == s.reqs[p].(pc := s'.reqs[p].pc)
      && (((a.Read? || a.Mint? || a.Bind? || a.Extend?) && a.p == p) || s'.reqs[p].pc == s.reqs[p].pc)
      && s'.issued == (if a.Mint? then s.issued[a.uuid := Who(s.reqs[a.p])] else s.issued)
      && s'.now == s.now + (if a.Tick? then a.ticks else 0)
  {
  }

  /** `get_employer_identity`. */
  function Resolve(s: State, token: string): Option<Owner> {
    if Live(s, TokenKey(token)) && s.keys[TokenKey(token)].value.Identity? then
      Some(Owner(s.keys[TokenKey(token)].value.tenant, Digits(s.keys[TokenKey(token)].value.phone)))
    else None
  }

  // ----- isolation -----

  predicate HasToken(r: Request) {
    r.pc.Binding? || r.pc.Extending? || r.pc.Answered?
  }

  /** A stored identity is its token's owner, and drafts lie under issued tokens. */
  predicate TokenOk(s: State, token: string) {
    && (TokenKey(token) in s.keys ==>
        && token in s.issued && s.keys[TokenKey(token)].value.Identity?
        && s.issued[token]
           == Owner(s.keys[TokenKey(token)].value.tenant, Digits(s.keys[TokenKey(token)].value.phone)))
    && (DraftKey(token) in s.keys ==> token in s.issued)
  }

  /** A forward pointer holds a token of its own employer. */
  predicate PointerOk(s: State, tenant: string, phone: string) {
    var fwd := FwdKey(tenant, phone);
    fwd in s.keys ==>
      && s.keys[fwd].value.TokenOf? && s.keys[fwd].value.token != ""
      && s.keys[fwd].value.token in s.issued
      && s.issued[s.keys[fwd].value.token] == Owner(tenant, Digits(phone))
  }

  /** A request holds a token of its own employer. */
  predicate RequestOk(s: State, p: int) {
    0 <= p < |s.reqs| && HasToken(s.reqs[p]) ==>
      s.reqs[p].pc.token != "" && s.reqs[p].pc.token in s.issued && s.issued[s.reqs[p].pc.token] == Who(s.reqs[p])
  }

  ghost predicate Isolated(s: State) {
    && (forall token :: TokenOk(s, token))
    && (forall tenant, phone :: PointerOk(s, tenant, phone))
    && (forall p :: RequestOk(s, p))
  }

  /** Tokens are never reissued to someone else. */
  predicate Remembers(s: State, s': State) {
    forall token :: token in s.issued ==> token in s'.issued && s'.issued[token] == s.issued[token]
  }

  lemma StepTokenOk(s: State, a: Action, ttl: int, token: string)
    requires Isolated(s) && Enabled(s, a) && Proper(s, a)
    ensures TokenOk(Step(s, a, ttl), token)
  {
    assert TokenOk(s, token);
    StepKeys(s, a, ttl, "", "", token);
    if a.Mint? || a.Bind? || a.Read? || a.Extend? {
      StepRequests(s, a, ttl, a.p);
      assert RequestOk(s, a.p);
    }
    assert a.StageDraft? || a.ClearDraft? || a.Tick? ==> Step(s, a, ttl).issued == s.issued;
    hide Step;
    hide TokenKey;
    hide DraftKey;
    hide FwdKey;
    hide Digits;
  }

  lemma StepPointerOk(s: State, a: Action, ttl: int, tenant: string, phone: string)
    requires Isolated(s) && Enabled(s, a) && Proper(s, a)
    ensures PointerOk(Step(s, a, ttl), tenant, phone)
  {
    assert PointerOk(s, tenant, phone);
    StepKeys(s, a, ttl, tenant, phone, "");
    if a.Mint? && Fwd(s.reqs[a.p]) == FwdKey(tenant, phone) {
      FwdKeyInjective(s.reqs[a.p].tenant, s.reqs[a.p].phone, tenant, phone);
    }
    if a.Mint? || a.Bind? || a.Read? || a.Extend? {
      StepRequests(s, a, ttl, a.p);
    }
    assert a.StageDraft? || a.ClearDraft? || a.Tick? ==> Step(s, a, ttl).issued == s.issued;
    hide Step;
    hide FwdKey;
    hide Digits;
  }

  lemma StepRequestOk(s: State, a: Action, ttl: int, p: int)
    requires Isolated(s) && Enabled(s, a) && Proper(s, a)
    ensures RequestOk(Step(s, a, ttl), p)
  {
    if 0 <= p < |s.reqs| {
      assert RequestOk(s, p) && PointerOk(s, s.reqs[p].tenant, s.reqs[p].phone);
      StepRequests(s, a, ttl, p);
      hide FwdKey;
      hide TokenKey;
      hide DraftKey;
      hide Digits;
    }
  }

  lemma StepIsolated(s: State, a: Action, ttl: int)
    requires Isolated(s) && Enabled(s, a) && Proper(s, a)
    ensures Isolated(Step(s, a, ttl)) && Remembers(s, Step(s, a, ttl))
  {
    hide TokenOk;
    hide PointerOk;
    hide RequestOk;
    forall token ensures TokenOk(Step(s, a, ttl), token) {
      StepTokenOk(s, a, ttl, token);
    }
    forall tenant, phone ensures PointerOk(Step(s, a, ttl), tenant, phone) {
      StepPointerOk(s, a, ttl, tenant, phone);
    }
    forall p ensures RequestOk(Step(s, a, ttl), p) {
      StepRequestOk(s, a, ttl, p);
    }
  }

  /** Over any interleaving of token requests, fresh or reused, for any employers:
      every stored identity, pointer and draft and every answer stays with the
      employer its token was minted for, and no token changes hands. */
  lemma {:induction false} TokensStayIsolated(s: State, acts: seq<Action>, ttl: int)
    requires Isolated(s) && ProperRun(s, acts, ttl)
    ensures Isolated(Run(s, acts, ttl)) && Remembers(s, Run(s, acts, ttl))
    decreases |acts|
  {
    hide Step;
    hide Isolated;
    if acts != [] {
      StepIsolated(s, acts[0], ttl);
      TokensStayIsolated(Step(s, acts[0], ttl), acts[1..], ttl);
    }
  }

  /** Nothing has started and Redis is empty. */
  predicate Initial(s: State) {
    s.keys == map[] && s.issued == map[] && forall p :: 0 <= p < |s.reqs| ==> s.reqs[p].pc.Ready?
  }

  lemma InitialIsIsolated(s: State)
    requires Initial(s)
    ensures Isolated(s)
  {
  }

  /** No two employers share a token: requests that hold one token, wherever they
      stand and whatever ran between them, came from one employer. */
  lemma NoSharedToken(s: State, acts: seq<Action>, ttl: int, p: nat, q: nat)
    requires Isolated(s) && ProperRun(s, acts, ttl)
    ensures var t := Run(s, acts, ttl);
      p < |t.reqs| && q < |t.reqs| && HasToken(t.reqs[p]) && HasToken(t.reqs[q]) ==>
        (t.reqs[p].pc.token == t.reqs[q].pc.token ==> Who(t.reqs[p]) == Who(t.reqs[q]))
  {
    TokensStayIsolated(s, acts, ttl);
    assert RequestOk(Run(s, acts, ttl), p) && RequestOk(Run(s, acts, ttl), q);
  }

  /** A fresh token is new, becomes the pointer, and has no draft staged under it;
      nor does it resolve until its own request has written the identity. */
  lemma FreshTokenHasNoDraft(s: State, p: nat, uuid: string, ttl: int)
    requires Isolated(s) && Enabled(s, Mint(p, uuid)) && Proper(s, Mint(p, uuid))
    ensures var s' := Step(s, Mint(p, uuid), ttl);
      && s'.reqs[p].pc == Binding(uuid) && s'.issued[uuid] == Who(s.reqs[p])
      && DraftKey(uuid) !in s'.keys && TokenKey(uuid) !in s'.keys && Resolve(s', uuid) == None
      && s'.keys[Fwd(s.reqs[p])] == Entry(TokenOf(uuid), s.now + ttl)
  {
    assert TokenOk(s, uuid);
    StepKeys(s, Mint(p, uuid), ttl, s.reqs[p].tenant, s.reqs[p].phone, uuid);
  }

  // ----- what a request does -----

  /** A request that is not fresh takes the token of its employer's pointer exactly while
      the pointer is live, and otherwise goes on to mint; a fresh one never reads. */
  lemma PointerIsReusedIff(s: State, p: nat, ttl: int)
    requires Isolated(s) && p < |s.reqs| && s.reqs[p].pc.Ready?
    ensures Enabled(s, Read(p)) <==> !s.reqs[p].anew
    ensures forall uuid :: Enabled(s, Mint(p, uuid)) <==> s.reqs[p].anew
    ensures !s.reqs[p].anew ==> var fwd := FwdKey(s.reqs[p].tenant, s.reqs[p].phone);
      if fwd in s.keys && s.now < s.keys[fwd].expires then
        s.keys[fwd].value.TokenOf? && Step(s, Read(p), ttl) == Goto(s, p, Binding(s.keys[fwd].value.token))
      else Step(s, Read(p), ttl) == Goto(s, p, Minting)
  {
    assert PointerOk(s, s.reqs[p].tenant, s.reqs[p].phone);
    hide FwdKey;
    hide Digits;
  }

  /** Minting points the employer at the new token for the TTL; binding stores exactly
      who asked, for the TTL; extending renews the pointer exactly when it is live. */
  lemma CommandsWrite(s: State, p: nat, uuid: string, ttl: int)
    requires p < |s.reqs|
    ensures var r := s.reqs[p]; var fwd := FwdKey(r.tenant, r.phone);
      && (Enabled(s, Mint(p, uuid)) ==>
          && Step(s, Mint(p, uuid), ttl).keys == s.keys[fwd := Entry(TokenOf(uuid), s.now + ttl)]
          && Step(s, Mint(p, uuid), ttl).reqs[p].pc == Binding(uuid))
      && (Enabled(s, Bind(p)) ==>
          && Step(s, Bind(p), ttl).keys
             == s.keys[TokenKey(r.pc.token) := Entry(Identity(r.tenant, r.phone, r.conversation, r.name), s.now + ttl)]
          && Step(s, Bind(p), ttl).reqs[p].pc == Extending(r.pc.token, s.now))
      && (Enabled(s, Extend(p)) ==>
          && Step(s, Extend(p), ttl).keys
             == (if fwd in s.keys && s.now < s.keys[fwd].expires
                 then s.keys[fwd := Entry(s.keys[fwd].value, s.now + ttl)] else s.keys)
          && Step(s, Extend(p), ttl).reqs[p].pc == Answered(r.pc.token, r.pc.bound))
  {
    hide FwdKey;
    hide TokenKey;
    hide Digits;
  }

  /** This action stages or clears the token's draft. */
  predicate Drafts(a: Action, token: string) {
    (a.StageDraft? || a.ClearDraft?) && a.token == token
  }

  lemma {:induction false} DraftKept(s: State, acts: seq<Action>, ttl: int, token: string, e: Entry)
    requires ProperRun(s, acts, ttl) && forall i :: 0 <= i < |acts| ==> !Drafts(acts[i], token)
    requires DraftKey(token) in s.keys && s.keys[DraftKey(token)] == e
    ensures var t := Run(s, acts, ttl); DraftKey(token) in t.keys && t.keys[DraftKey(token)] == e
    decreases |acts|
  {
    if acts != [] {
      StepDraft(s, acts[0], ttl, token);
      hide Step;
      hide DraftKey;
      DraftKept(Step(s, acts[0], ttl), acts[1..], ttl, token, e);
    }
  }

  lemma StepDraft(s: State, a: Action, ttl: int, token: string)
    requires Enabled(s, a) && !Drafts(a, token) && DraftKey(token) in s.keys
    ensures var s' := Step(s, a, ttl);
      DraftKey(token) in s'.keys && s'.keys[DraftKey(token)] == s.keys[DraftKey(token)]
  {
    match a
    case Mint(p, _) => FamiliesDisjoint(s.reqs[p].tenant, s.reqs[p].phone, token, token);
    case Bind(p) => FamiliesDisjoint("", "", s.reqs[p].pc.token, token);
    case Extend(p) => FamiliesDisjoint(s.reqs[p].tenant, s.reqs[p].phone, token, token);
    case StageDraft(t, _) => FamiliesDisjoint("", "", t, token);
    case ClearDraft(t) => FamiliesDisjoint("", "", t, token);
    case _ =>
  }

  /** `get_job_draft`. */
  function DraftOf(s: State, token: string): Option<string> {
    if Live(s, DraftKey(token)) && s.keys[DraftKey(token)].value.Draft? then Some(s.keys[DraftKey(token)].value.job)
    else None
  }

  /** A staged draft is read back under its own token, whatever requests run meanwhile,
      until it is staged anew, cleared or the TTL has passed. */
  lemma DraftReadsBack(s: State, token: string, job: string, acts: seq<Action>, ttl: int)
    requires Proper(s, StageDraft(token, job)) && ProperRun(Step(s, StageDraft(token, job), ttl), acts, ttl)
    requires forall i :: 0 <= i < |acts| ==> !Drafts(acts[i], token)
    ensures var t := Run(Step(s, StageDraft(token, job), ttl), acts, ttl);
      DraftOf(t, token) == if t.now < s.now + ttl then Some(job) else None
    ensures DraftOf(Step(s, ClearDraft(token), ttl), token) == None
  {
    DraftKept(Step(s, StageDraft(token, job), ttl), acts, ttl, token, Entry(Draft(job), s.now + ttl));
  }

  // ----- when a token resolves -----

  /** This request has written the identity of the token. */
  predicate Bound(s: State, p: int, token: string) {
    0 <= p < |s.reqs| && (s.reqs[p].pc.Extending? || s.reqs[p].pc.Answered?) && s.reqs[p].pc.token == token
  }

  /** A stored identity runs out `ttl` after the last request wrote it. */
  ghost predicate Timed(s: State, ttl: int, token: string) {
    && (TokenKey(token) in s.keys ==>
        exists p :: Bound(s, p, token) && s.keys[TokenKey(token)].expires == s.reqs[p].pc.bound + ttl)
    && (forall p :: Bound(s, p, token) ==>
        && s.reqs[p].pc.bound <= s.now
        && TokenKey(token) in s.keys && s.reqs[p].pc.bound + ttl <= s.keys[TokenKey(token)].expires)
  }

  lemma StepBound(s: State, a: Action, ttl: int, p: int, token: string)
    requires Enabled(s, a)
    ensures var s' := Step(s, a, ttl);
      && (Bound(s', p, token) && !(a.Bind? && a.p == p) ==>
          Bound(s, p, token) && s'.reqs[p].pc.bound == s.reqs[p].pc.bound)
      && (Bound(s, p, token) ==> Bound(s', p, token) && s'.reqs[p].pc.bound == s.reqs[p].pc.bound)
      && (a.Bind? && a.p == p && Bound(s', p, token) ==>
          s.reqs[p].pc.token == token && s'.reqs[p].pc.bound == s.now)
      && (a.Bind? && a.p == p && s.reqs[p].pc.token == token ==> Bound(s', p, token))
      && s.now <= s'.now && (!a.Tick? ==> s'.now == s.now)
  {
    hide FwdKey;
    hide TokenKey;
    hide DraftKey;
  }

  lemma StepTimed(s: State, a: Action, ttl: int, token: string)
    requires Timed(s, ttl, token) && Enabled(s, a)
    ensures Timed(Step(s, a, ttl), ttl, token)
  {
    var s', id := Step(s, a, ttl), TokenKey(token);
    StepKeys(s, a, ttl, "", "", token);
    hide Step;
    hide TokenKey;
    hide FwdKey;
    hide DraftKey;
    if a.Bind? {
      StepBound(s, a, ttl, a.p, token);
    }
    if id in s'.keys && !(a.Bind? && s.reqs[a.p].pc.token == token) {
      var p :| Bound(s, p, token) && s.keys[id].expires == s.reqs[p].pc.bound + ttl;
      StepBound(s, a, ttl, p, token);
      assert Bound(s', p, token);
    }
    forall p | Bound(s', p, token)
      ensures s'.reqs[p].pc.bound <= s'.now && id in s'.keys && s'.reqs[p].pc.bound + ttl <= s'.keys[id].expires
    {
      StepBound(s, a, ttl, p, token);
    }
  }

  lemma {:induction false} AlwaysTimed(s: State, acts: seq<Action>, ttl: int, token: string)
    requires Timed(s, ttl, token) && ProperRun(s, acts, ttl)
    ensures Timed(Run(s, acts, ttl), ttl, token)
    decreases |acts|
  {
    hide Step;
    hide Timed;
    if acts != [] {
      StepTimed(s, acts[0], ttl, token);
      AlwaysTimed(Step(s, acts[0], ttl), acts[1..], ttl, token);
    }
  }

  /** Some request wrote the token's identity less than `ttl` ago. */
  ghost predicate BoundLately(s: State, ttl: int, token: string) {
    exists p :: Bound(s, p, token) && s.now < s.reqs[p].pc.bound + ttl
  }

  /** In every reachable state a live forward pointer resolves, and then to the very
      phone it was set for, exactly when some request wrote its token's identity less
      than `ttl` ago: not before the minting request has, and not once the last
      such write is `ttl` old, however recently the pointer was extended. */
  lemma PointerResolvesIff(s: State, acts: seq<Action>, ttl: int, tenant: string, phone: string)
    requires Initial(s) && ProperRun(s, acts, ttl)
    requires Live(Run(s, acts, ttl), FwdKey(tenant, phone))
    ensures var t, fwd := Run(s, acts, ttl), FwdKey(tenant, phone);
      && t.keys[fwd].value.TokenOf?
      && var token := t.keys[fwd].value.token;
         Resolve(t, token) == if BoundLately(t, ttl, token) then Some(Owner(tenant, Digits(phone))) else None
  {
    InitialIsIsolated(s);
    TokensStayIsolated(s, acts, ttl);
    var t, fwd := Run(s, acts, ttl), FwdKey(tenant, phone);
    assert PointerOk(t, tenant, phone);
    var token := t.keys[fwd].value.token;
    AlwaysTimed(s, acts, ttl, token);
    assert TokenOk(t, token);
  }

  /** An answered token resolves to its requester for `ttl` ticks from the moment its
      identity was written, and never to anyone else, whatever runs meanwhile. */
  lemma AnsweredTokenIsOwn(s: State, acts: seq<Action>, ttl: int, p: nat)
    requires Initial(s) && ProperRun(s, acts, ttl)
    requires p < |Run(s, acts, ttl).reqs| && HasToken(Run(s, acts, ttl).reqs[p])
    ensures var t := Run(s, acts, ttl); var r := t.reqs[p];
      && (Resolve(t, r.pc.token).Some? ==> Resolve(t, r.pc.token) == Some(Who(r)))
      && (!r.pc.Binding? && t.now < r.pc.bound + ttl ==> Resolve(t, r.pc.token) == Some(Who(r)))
  {
    InitialIsIsolated(s);
    TokensStayIsolated(s, acts, ttl);
    var t := Run(s, acts, ttl);
    var token := t.reqs[p].pc.token;
    AlwaysTimed(s, acts, ttl, token);
    assert RequestOk(t, p) && TokenOk(t, token);
    assert !t.reqs[p].pc.Binding? ==> Bound(t, p, token);
  }

  // ----- requests that take no time -----

  /** Between its pointer and its last command. */
  predicate Busy(r: Request) {
    r.pc.Binding? || r.pc.Extending?
  }

  predicate Quiet(s: State) {
    forall p :: 0 <= p < |s.reqs| ==> !Busy(s.reqs[p])
  }

  /** Time passes only while no request is between its commands. */
  ghost predicate Prompt(s: State, acts: seq<Action>, ttl: int)
    requires ProperRun(s, acts, ttl)
    decreases |acts|
  {
    acts == [] || ((acts[0].Tick? ==> Quiet(s)) && Prompt(Step(s, acts[0], ttl), acts[1..], ttl))
  }

  /** The identity of this token lasts until `until`, or is about to be written. */
  ghost predicate Lasts(s: State, token: string, until: int) {
    || (exists p :: 0 <= p < |s.reqs| && s.reqs[p].pc == Binding(token))
    || (TokenKey(token) in s.keys && until <= s.keys[TokenKey(token)].expires)
  }

  /** Each pointer's identity lasts as long as the pointer. */
  ghost predicate PointerLasts(s: State, ttl: int, tenant: string, phone: string) {
    var fwd := FwdKey(tenant, phone);
    fwd in s.keys && s.keys[fwd].value.TokenOf? ==>
      s.keys[fwd].expires <= s.now + ttl && Lasts(s, s.keys[fwd].value.token, s.keys[fwd].expires)
  }

  /** While a request is busy its pointer's identity is as good as new. */
  ghost predicate BusyLasts(s: State, ttl: int, p: int) {
    0 <= p < |s.reqs| && Busy(s.reqs[p]) ==>
      var fwd := Fwd(s.reqs[p]);
      fwd in s.keys && s.keys[fwd].value.TokenOf? ==> Lasts(s, s.keys[fwd].value.token, s.now + ttl)
  }

  ghost predicate Lasting(s: State, ttl: int) {
    && (forall tenant, phone :: PointerLasts(s, ttl, tenant, phone))
    && (forall p :: BusyLasts(s, ttl, p))
  }

  lemma StepLasts(s: State, a: Action, ttl: int, token: string, until: int)
    requires Enabled(s, a) && Lasts(s, token, until) && until <= s.now + ttl
    ensures Lasts(Step(s, a, ttl), token, until)
  {
    var s' := Step(s, a, ttl);
    StepKeys(s, a, ttl, "", "", token);
    if p :| 0 <= p < |s.reqs| && s.reqs[p].pc == Binding(token) {
      StepRequests(s, a, ttl, p);
      assert !(a.Bind? && a.p == p) ==> s'.reqs[p].pc == Binding(token);
    }
    hide Step;
  }

  lemma StepPointerLasts(s: State, a: Action, ttl: int, tenant: string, phone: string)
    requires Lasting(s, ttl) && Enabled(s, a)
    ensures PointerLasts(Step(s, a, ttl), ttl, tenant, phone)
  {
    var s', fwd := Step(s, a, ttl), FwdKey(tenant, phone);
    if fwd in s'.keys && s'.keys[fwd].value.TokenOf? {
      var token := s'.keys[fwd].value.token;
      StepKeys(s, a, ttl, tenant, phone, "");
      assert s.now <= s'.now && (!a.Tick? ==> s'.now == s.now);
      assert PointerLasts(s, ttl, tenant, phone);
      if a.Mint? && Fwd(s.reqs[a.p]) == fwd {
        assert s'.reqs[a.p].pc == Binding(token);
      } else if a.Extend? && Fwd(s.reqs[a.p]) == fwd && Live(s, fwd) {
        assert BusyLasts(s, ttl, a.p);
        StepLasts(s, a, ttl, token, s.now + ttl);
      } else {
        StepLasts(s, a, ttl, token, s.keys[fwd].expires);
      }
      hide Step;
    }
  }

  lemma StepBusyLasts(s: State, a: Action, ttl: int, p: int)
    requires Lasting(s, ttl) && Enabled(s, a) && (a.Tick? ==> Quiet(s))
    ensures BusyLasts(Step(s, a, ttl), ttl, p)
  {
    var s' := Step(s, a, ttl);
    if 0 <= p < |s.reqs| && Busy(s'.reqs[p]) && !a.Tick? {
      var r := s.reqs[p];
      StepRequests(s, a, ttl, p);
      StepKeys(s, a, ttl, r.tenant, r.phone, "");
      var fwd := Fwd(r);
      if fwd in s'.keys && s'.keys[fwd].value.TokenOf? {
        var token := s'.keys[fwd].value.token;
        if a.Mint? && Fwd(s.reqs[a.p]) == fwd {
          assert s'.reqs[a.p].pc == Binding(token);
        } else if a.Read? && a.p == p {
          assert s'.reqs[p].pc == Binding(token);
        } else {
          assert BusyLasts(s, ttl, p);
          StepLasts(s, a, ttl, token, s.now + ttl);
        }
      }
    }
  }

  lemma {:induction false} AlwaysLasting(s: State, acts: seq<Action>, ttl: int)
    requires Lasting(s, ttl) && ProperRun(s, acts, ttl) && Prompt(s, acts, ttl)
    ensures Lasting(Run(s, acts, ttl), ttl)
    decreases |acts|
  {
    hide Step;
    hide PointerLasts;
    hide BusyLasts;
    if acts != [] {
      var a, s1 := acts[0], Step(s, acts[0], ttl);
      forall tenant, phone ensures PointerLasts(s1, ttl, tenant, phone) {
        StepPointerLasts(s, a, ttl, tenant, phone);
      }
      forall p ensures BusyLasts(s1, ttl, p) {
        StepBusyLasts(s, a, ttl, p);
      }
      AlwaysLasting(s1, acts[1..], ttl);
    }
  }

  /** If no time passes between the commands of a request, then whatever requests
      interleave, at every moment when none is under way every live forward pointer
      resolves back to its phone. */
  lemma PromptPointersResolve(s: State, acts: seq<Action>, ttl: int, tenant: string, phone: string)
    requires Initial(s) && ProperRun(s, acts, ttl) && Prompt(s, acts, ttl)
    requires Quiet(Run(s, acts, ttl)) && Live(Run(s, acts, ttl), FwdKey(tenant, phone))
    ensures var t, fwd := Run(s, acts, ttl), FwdKey(tenant, phone);
      t.keys[fwd].value.TokenOf? && Resolve(t, t.keys[fwd].value.token) == Some(Owner(tenant, Digits(phone)))
  {
    var t := Run(s, acts, ttl);
    InitialIsIsolated(s);
    TokensStayIsolated(s, acts, ttl);
    assert Lasting(s, ttl);
    AlwaysLasting(s, acts, ttl);
    assert PointerOk(t, tenant, phone) && PointerLasts(t, ttl, tenant, phone);
    assert TokenOk(t, t.keys[FwdKey(tenant, phone)].value.token);
  }

  /** If time does pass, the pointer outlives the identity by just that long: a
      request that takes `gap` ticks from its identity to its last command leaves a
      live pointer that resolves to nobody from `ttl - gap` to `ttl` ticks later. */
  lemma SlowRequestOutlives(s: State, p: nat, gap: nat, wait: nat, ttl: int) returns (acts: seq<Action>)
    requires Enabled(s, Bind(p))
    requires var fwd := Fwd(s.reqs[p]);
      fwd in s.keys && s.keys[fwd].value == TokenOf(s.reqs[p].pc.token) && s.now + gap < s.keys[fwd].expires
    ensures ProperRun(s, acts, ttl)
    ensures var t, r := Run(s, acts, ttl), s.reqs[p];
      && t.now == s.now + gap + wait && |t.reqs| == |s.reqs| && t.reqs[p].pc == Answered(r.pc.token, s.now)
      && Fwd(r) in t.keys && t.keys[Fwd(r)].value == TokenOf(r.pc.token)
      && (Live(t, Fwd(r)) && Resolve(t, r.pc.token).None? <==> ttl - gap <= wait < ttl)
  {
    var fwd, token := Fwd(s.reqs[p]), s.reqs[p].pc.token;
    FamiliesDisjoint(s.reqs[p].tenant, s.reqs[p].phone, token, token);
    hide FwdKey;
    hide TokenKey;
    hide Digits;
    var s1 := Step(s, Bind(p), ttl);
    var s2 := Step(s1, Tick(gap), ttl);
    assert s2.keys[fwd] == s.keys[fwd] && Live(s2, fwd);
    assert s2.keys[TokenKey(token)] == Entry(IdentityOf(s.reqs[p]), s.now + ttl);
    var s3 := Step(s2, Extend(p), ttl);
    assert s3.keys[fwd] == Entry(TokenOf(token), s2.now + ttl) && s3.keys[TokenKey(token)] == s2.keys[TokenKey(token)];
    acts := Prepend(s3, Tick(wait), [], ttl);
    acts := Prepend(s2, Extend(p), acts, ttl);
    acts := Prepend(s1, Tick(gap), acts, ttl);
    acts := Prepend(s, Bind(p), acts, ttl);
  }

  lemma Prepend(s: State, a: Action, rest: seq<Action>, ttl: int) returns (acts: seq<Action>)
    requires Enabled(s, a) && Proper(s, a) && ProperRun(Step(s, a, ttl), rest, ttl)
    ensures acts == [a] + rest && ProperRun(s, acts, ttl) && Run(s, acts, ttl) == Run(Step(s, a, ttl), rest, ttl)
  {
    acts := [a] + rest;
    assert acts[1..] == rest;
  }

  lemma {:induction false} RunThen(s: State, acts: seq<Action>, a: Action, ttl: int)
    requires ProperRun(s, acts, ttl) && Enabled(Run(s, acts, ttl), a) && Proper(Run(s, acts, ttl), a)
    ensures ProperRun(s, acts + [a], ttl) && Run(s, acts + [a], ttl) == Step(Run(s, acts, ttl), a, ttl)
    decreases |acts|
  {
    hide Step;
    if acts == [] {
      assert acts + [a] == [a] && [a][1..] == [];
    } else {
      RunThen(Step(s, acts[0], ttl), acts[1..], a, ttl);
      assert (acts + [a])[1..] == acts[1..] + [a];
    }
  }

  // ----- in place -----

  /** Redis. `reqs` says where each request is; `p` is the one running. */
  class ConversationMemory {
    const ttl: int
    var now: int
    var keys: map<string, Entry>
    ghost var issued: map<string, Owner>
    ghost var reqs: seq<Request>

    constructor (ttl: int, ghost reqs: seq<Request>)
      requires forall p :: 0 <= p < |reqs| ==> reqs[p].pc.Ready?
      ensures Initial(Redis()) && this.ttl == ttl && this.reqs == reqs
    {
      this.ttl, now, keys, issued := ttl, 0, map[], map[];
      this.reqs := reqs;
    }

    ghost function Redis(): State
      reads this
    {
      State(now, keys, issued, reqs)
    }

    /** `GET` of the forward pointer; the empty string is None. */
    method ReadPointer(fwd: string, ghost p: nat) returns (token: string)
      requires Enabled(Redis(), Read(p)) && Fwd(reqs[p]) == fwd
      modifies this`reqs
      ensures Redis() == Step(old(Redis()), Read(p), ttl)
      ensures token == Held(old(Redis()), fwd)
      ensures reqs == old(reqs)[p := old(reqs)[p].(pc := if token != "" then Binding(token) else Minting)]
    {
      token := "";
      if fwd in keys && now < keys[fwd].expires && keys[fwd].value.TokenOf? {
        token := keys[fwd].value.token;
      }
      reqs := reqs[p := reqs[p].(pc := if token != "" then Binding(token) else Minting)];
    }

    method SetPointer(fwd: string, uuid: string, ghost p: nat)
      requires Enabled(Redis(), Mint(p, uuid)) && Fwd(reqs[p]) == fwd
      modifies this
      ensures Redis() == Step(old(Redis()), Mint(p, uuid), ttl)
      ensures reqs == old(reqs)[p := old(reqs)[p].(pc := Binding(uuid))]
    {
      keys := keys[fwd := Entry(TokenOf(uuid), now + ttl)];
      issued := issued[uuid := Who(reqs[p])];
      reqs := reqs[p := reqs[p].(pc := Binding(uuid))];
    }

    method SetIdentity(token: string, identity: Value, ghost p: nat)
      requires Enabled(Redis(), Bind(p)) && reqs[p].pc.token == token && identity == IdentityOf(reqs[p])
      modifies this
      ensures Redis() == Step(old(Redis()), Bind(p), ttl)
      ensures reqs == old(reqs)[p := old(reqs)[p].(pc := Extending(token, now))]
    {
      keys := keys[TokenKey(token) := Entry(identity, now + ttl)];
      reqs := reqs[p := reqs[p].(pc := Extending(token, now))];
    }

    method ExtendPointer(fwd: string, ghost p: nat)
      requires Enabled(Redis(), Extend(p)) && Fwd(reqs[p]) == fwd
      modifies this
      ensures Redis() == Step(old(Redis()), Extend(p), ttl)
      ensures var r := old(reqs)[p]; reqs == old(reqs)[p := r.(pc := Answered(r.pc.token, r.pc.bound))]
    {
      if fwd in keys && now < keys[fwd].expires {
        keys := keys[fwd := keys[fwd].(expires := now + ttl)];
      }
      reqs := reqs[p := reqs[p].(pc := Answered(reqs[p].pc.token, reqs[p].pc.bound))];
    }

    method Await(ticks: nat)
      modifies this`now
      ensures Redis() == Step(old(Redis()), Tick(ticks), ttl)
    {
      now := now + ticks;
    }

    /** One request with nobody else between its commands, however long each takes:
        a run of the steps above that answers the token its own step log says. */
    method EnsureEmployerToken(tenant: string, phone: string, conversation: string, name: string, anew: bool,
                               uuid: string, waits: (nat, nat, nat), ghost p: nat)
      returns (token: string, ghost acts: seq<Action>)
      requires p < |reqs| && reqs[p] == Request(tenant, phone, conversation, name, anew, Ready)
      requires uuid !in issued && uuid != ""
      modifies this
      ensures ProperRun(old(Redis()), acts, ttl) && Redis() == Run(old(Redis()), acts, ttl)
      ensures |reqs| == old(|reqs|) && reqs[p].pc.Answered? && reqs[p].pc.token == token
      ensures var fwd := FwdKey(tenant, phone);
        token == if !anew && fwd in old(keys) && old(now) < old(keys)[fwd].expires && old(keys)[fwd].value.TokenOf?
                    && old(keys)[fwd].value.token != ""
                 then old(keys)[fwd].value.token else uuid
    {
      assert ProperRun(old(Redis()), [], ttl) && Run(old(Redis()), [], ttl) == Redis();
      hide Step;
      hide Run;
      hide ProperRun;
      hide Digits;
      var fwd := FwdKey(tenant, phone);
      var identity := Identity(tenant, phone, conversation, name);
      token, acts := "", [];
      if !anew {
        RunThen(old(Redis()), acts, Read(p), ttl);
        acts := acts + [Read(p)];
        token := ReadPointer(fwd, p);
        RunThen(old(Redis()), acts, Tick(waits.0), ttl);
        acts := acts + [Tick(waits.0)];
        Await(waits.0);
      }
      if token == "" {
        token := uuid;
        RunThen(old(Redis()), acts, Mint(p, uuid), ttl);
        acts := acts + [Mint(p, uuid)];
        SetPointer(fwd, token, p);
        RunThen(old(Redis()), acts, Tick(waits.1), ttl);
        acts := acts + [Tick(waits.1)];
        Await(waits.1);
      }
      RunThen(old(Redis()), acts, Bind(p), ttl);
      acts := acts + [Bind(p)];
      SetIdentity(token, identity, p);
      RunThen(old(Redis()), acts, Tick(waits.2), ttl);
      acts := acts + [Tick(waits.2)];
      Await(waits.2);
      RunThen(old(Redis()), acts, Extend(p), ttl);
      acts := acts + [Extend(p)];
      ExtendPointer(fwd, p);
    }

    method StageJobDraft(token: string, job: string)
      modifies this`keys
      ensures Redis() == Step(old(Redis()), StageDraft(token, job), ttl)
    {
      keys := keys[DraftKey(token) := Entry(Draft(job), now + ttl)];
    }

    method GetJobDraft(token: string) returns (job: Option<string>)
      ensures job == DraftOf(Redis(), token)
    {
      var key := DraftKey(token);
      var live := key in keys && now < keys[key].expires && keys[key].value.Draft?;
      job := if live then Some(keys[key].value.job) else None;
    }

    method ClearJobDraft(token: string)
      modifies this`keys
      ensures Redis() == Step(old(Redis()), ClearDraft(token), ttl)
    {
      keys := keys - {DraftKey(token)};
    }
  }
}
