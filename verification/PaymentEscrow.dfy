/**
 * contracts/payment_escrow/src/lib.rs.
 *
 * `State` is the contract's storage, the token ledger it calls, and the log of its
 * payouts.  A call that returns an error or traps leaves everything unchanged.
 */
module PaymentEscrow {
  import opened Common
  import opened TokenLedger

  const DISPUTE_TIMEOUT_SECONDS: nat := 30 * 24 * 3600

  const DEFAULT_WINDOW: nat := 86_400

  datatype Status = Active | Released | Refunded | Disputed

  datatype Resolution = ToBeneficiary | ToDepositor

  datatype Vote = Vote(arbitrator: Address, decision: Resolution, timestamp: nat)

  /** The part of an escrow fixed at creation. */
  datatype Terms = Terms(depositor: Address, beneficiary: Address, token: Address, amount: int,
                         createdAt: nat, releaseTime: nat, disputeWindow: nat)

  datatype Escrow = Escrow(id: nat, terms: Terms, status: Status, disputeTimestamp: nat, votes: seq<Vote>,
                           depositorEvidence: nat, beneficiaryEvidence: nat)

  datatype Payout = Payout(id: nat, to: Address, token: Address, amount: int)

  datatype Config = Config(admin: Option<Address>, paymentToken: Option<Address>, window: Option<nat>,
                           windowConfig: map<nat, nat>, paused: bool, arbitrators: seq<Address>)

  datatype Book = Book(count: nat, escrows: map<nat, Escrow>,
                       byDepositor: map<Address, seq<nat>>, byBeneficiary: map<Address, seq<nat>>,
                       payouts: seq<Payout>)

  datatype State = State(self: Address, config: Config, book: Book, balances: Balances)

  datatype Error =
    | AdminNotSet | Unauthorized | EscrowNotFound | EscrowAlreadyReleased | EscrowInDispute
    | DisputeWindowActive | PaymentTokenNotSet | InvalidAmount | NotYetReleasable
    | AlreadyProcessed | DisputeWindowExpired | Trap

  type Outcome = Result<State, Error>

  // ---------------------------------------------------------------- what each call does

  function Listed(lists: map<Address, seq<nat>>, who: Address): seq<nat> {
    if who in lists then lists[who] else []
  }

  function Tally(votes: seq<Vote>, d: Resolution): nat {
    if votes == [] then 0
    else Tally(votes[..|votes| - 1], d) + (if votes[|votes| - 1].decision == d then 1 else 0)
  }

  predicate HasVoted(votes: seq<Vote>, who: Address) {
    exists k :: 0 <= k < |votes| && votes[k].arbitrator == who
  }

  function Majority(panel: seq<Address>): nat { |panel| / 2 + 1 }

  function WindowFor(c: Config, bookingType: nat): nat {
    if bookingType in c.windowConfig then c.windowConfig[bookingType]
    else if c.window.Some? then c.window.value else DEFAULT_WINDOW
  }

  /** How a list of votes settles an escrow, if it does. */
  function Verdict(panel: seq<Address>, votes: seq<Vote>): Option<Status> {
    if Tally(votes, ToBeneficiary) >= Majority(panel) then Some(Released)
    else if Tally(votes, ToDepositor) >= Majority(panel) then Some(Refunded)
    else None
  }

  function Payee(t: Terms, outcome: Status): Address {
    if outcome == Released then t.beneficiary else t.depositor
  }

  predicate Closed(e: Escrow) { e.status == Released || e.status == Refunded }

  function Stored(b: Book, id: nat, e: Escrow): Book { b.(escrows := b.escrows[id := e]) }

  /** What must have been paid for an escrow, given its status. */
  function Due(id: nat, e: Escrow): seq<Payout> {
    if Closed(e) then [Payout(id, Payee(e.terms, e.status), e.terms.token, e.terms.amount)] else []
  }

  /** Pay record e, stored under id, and store it with its final status. */
  function PayOut(s: State, id: nat, e: Escrow, outcome: Status): Outcome {
    var moved := Transfer(s.balances, e.terms.token, s.self, Payee(e.terms, outcome), e.terms.amount);
    if moved.None? then Failure(Trap)
    else
      var done := e.(status := outcome);
      Success(s.(balances := moved.value,
                 book := Stored(s.book, id, done).(payouts := s.book.payouts + Due(id, done))))
  }

  function DoCreate(s: State, now: nat, depositor: Address, beneficiary: Address, amount: int,
                    releaseTime: nat, bookingType: nat): Outcome {
    if s.config.paused then Failure(Unauthorized)
    else if amount <= 0 then Failure(InvalidAmount)
    else if s.config.paymentToken.None? then Failure(PaymentTokenNotSet)
    else
      var terms := Terms(depositor, beneficiary, s.config.paymentToken.value, amount, now, releaseTime,
                         WindowFor(s.config, bookingType));
      var moved := Transfer(s.balances, terms.token, depositor, s.self, amount);
      if moved.None? then Failure(Trap)
      else Success(s.(balances := moved.value, book := Opened(s.book, terms)))
  }

  function Opened(b: Book, terms: Terms): Book {
    var id := b.count + 1;
    Book(id, b.escrows[id := Escrow(id, terms, Active, 0, [], 0, 0)],
         b.byDepositor[terms.depositor := Listed(b.byDepositor, terms.depositor) + [id]],
         b.byBeneficiary[terms.beneficiary := Listed(b.byBeneficiary, terms.beneficiary) + [id]],
         b.payouts)
  }

  function DoRelease(s: State, now: nat, caller: Address, id: nat): Outcome {
    if s.config.paused then Failure(Unauthorized)
    else if id !in s.book.escrows then Failure(EscrowNotFound)
    else if s.config.admin.None? then Failure(AdminNotSet)
    else
      var e := s.book.escrows[id];
      if caller != e.terms.beneficiary && caller != s.config.admin.value then Failure(Unauthorized)
      else if Closed(e) then Failure(EscrowAlreadyReleased)
      else if e.status == Disputed then Failure(EscrowInDispute)
      else if e.terms.releaseTime + e.terms.disputeWindow > U64_MAX then Failure(Trap)
      else if now < e.terms.releaseTime + e.terms.disputeWindow then Failure(DisputeWindowActive)
      else PayOut(s, id, e, Released)
  }

  function DoRefund(s: State, caller: Address, id: nat): Outcome {
    if id !in s.book.escrows then Failure(EscrowNotFound)
    else if s.config.admin.None? then Failure(AdminNotSet)
    else
      var e := s.book.escrows[id];
      if caller != s.config.admin.value && caller != e.terms.depositor then Failure(Unauthorized)
      else if Closed(e) then Failure(EscrowAlreadyReleased)
      else PayOut(s, id, e, Refunded)
  }

  function DoDispute(s: State, now: nat, depositor: Address, id: nat, evidence: nat): Outcome {
    if s.config.paused then Failure(Unauthorized)
    else if id !in s.book.escrows then Failure(EscrowNotFound)
    else
      var e := s.book.escrows[id];
      if e.terms.depositor != depositor then Failure(Unauthorized)
      else if e.status != Active then Failure(EscrowAlreadyReleased)
      else if e.terms.releaseTime + e.terms.disputeWindow > U64_MAX then Failure(Trap)
      else if now > e.terms.releaseTime + e.terms.disputeWindow then Failure(DisputeWindowExpired)
      else Success(s.(book := Stored(s.book, id, e.(status := Disputed, disputeTimestamp := now, depositorEvidence := evidence))))
  }

  function DoEvidence(s: State, caller: Address, id: nat, evidence: nat): Outcome {
    if s.config.paused then Failure(Unauthorized)
    else if id !in s.book.escrows then Failure(EscrowNotFound)
    else
      var e := s.book.escrows[id];
      if e.status != Disputed then Failure(EscrowInDispute)
      else if caller == e.terms.depositor then Success(s.(book := Stored(s.book, id, e.(depositorEvidence := evidence))))
      else if caller == e.terms.beneficiary then Success(s.(book := Stored(s.book, id, e.(beneficiaryEvidence := evidence))))
      else Failure(Unauthorized)
  }

  function DoVote(s: State, now: nat, arbitrator: Address, id: nat, decision: Resolution): Outcome {
    if s.config.paused then Failure(Unauthorized)
    else if id !in s.book.escrows then Failure(EscrowNotFound)
    else
      var e := s.book.escrows[id];
      if e.status != Disputed then Failure(EscrowInDispute)
      else if arbitrator !in s.config.arbitrators || HasVoted(e.votes, arbitrator) then Failure(Unauthorized)
      else
        var voted := e.(votes := e.votes + [Vote(arbitrator, decision, now)]);
        match Verdict(s.config.arbitrators, voted.votes)
        case Some(outcome) => PayOut(s, id, voted, outcome)
        case None => Success(s.(book := Stored(s.book, id, voted)))
  }

  function DoExpire(s: State, now: nat, id: nat): Outcome {
    if s.config.paused then Failure(Unauthorized)
    else if id !in s.book.escrows then Failure(EscrowNotFound)
    else
      var e := s.book.escrows[id];
      if e.status != Disputed then Failure(EscrowInDispute)
      else if e.disputeTimestamp + DISPUTE_TIMEOUT_SECONDS > U64_MAX then Failure(Trap)
      else if now < e.disputeTimestamp + DISPUTE_TIMEOUT_SECONDS then Failure(DisputeWindowActive)
      else PayOut(s, id, e, Refunded)
  }

  function DoAutoRelease(s: State, now: nat, id: nat): Outcome {
    if id !in s.book.escrows then Failure(EscrowNotFound)
    else
      var e := s.book.escrows[id];
      if e.status != Active then Failure(AlreadyProcessed)
      else if now < e.terms.releaseTime then Failure(NotYetReleasable)
      else PayOut(s, id, e, Released)
  }

  datatype AdminCall =
    | SetArbitrators(panel: seq<Address>)
    | SetDisputeWindow(bookingType: nat, seconds: nat)
    | SetPaused(value: bool)

  function Configured(c: Config, call: AdminCall): Config {
    match call
    case SetArbitrators(panel) => c.(arbitrators := panel)
    case SetDisputeWindow(bookingType, seconds) => c.(windowConfig := c.windowConfig[bookingType := seconds])
    case SetPaused(value) => c.(paused := value)
  }

  function DoConfigure(s: State, caller: Address, call: AdminCall): Outcome {
    if s.config.admin.None? then Failure(AdminNotSet)
    else if caller != s.config.admin.value then Failure(Unauthorized)
    else Success(s.(config := Configured(s.config, call)))
  }

  function DoInitialize(s: State, admin: Address, token: Address, window: nat): Outcome {
    Success(s.(config := s.config.(admin := Some(admin), paymentToken := Some(token), window := Some(window),
                                   paused := false, arbitrators := [])))
  }

  // ---------------------------------------------------------------- runs

  datatype Call =
    | Initialize(admin: Address, paymentToken: Address, defaultWindow: nat)
    | Configure(caller: Address, setting: AdminCall)
    | CreateEscrow(depositor: Address, beneficiary: Address, amount: int, releaseTime: nat, bookingType: nat)
    | Release(caller: Address, id: nat)
    | Refund(caller: Address, id: nat)
    | Dispute(depositor: Address, id: nat, evidence: nat)
    | SubmitEvidence(caller: Address, id: nat, evidence: nat)
    | VoteResolution(arbitrator: Address, id: nat, decision: Resolution)
    | ExpireDispute(id: nat)
    | TryAutoRelease(id: nat)

  function Respond(s: State, now: nat, call: Call): Outcome {
    match call
    case Initialize(admin, token, window) => DoInitialize(s, admin, token, window)
    case Configure(caller, setting) => DoConfigure(s, caller, setting)
    case CreateEscrow(d, b, amount, releaseTime, bookingType) => DoCreate(s, now, d, b, amount, releaseTime, bookingType)
    case Release(caller, id) => DoRelease(s, now, caller, id)
    case Refund(caller, id) => DoRefund(s, caller, id)
    case Dispute(depositor, id, evidence) => DoDispute(s, now, depositor, id, evidence)
    case SubmitEvidence(caller, id, evidence) => DoEvidence(s, caller, id, evidence)
    case VoteResolution(arbitrator, id, decision) => DoVote(s, now, arbitrator, id, decision)
    case ExpireDispute(id) => DoExpire(s, now, id)
    case TryAutoRelease(id) => DoAutoRelease(s, now, id)
  }

  function After(s: State, o: Outcome): State { if o.Success? then o.value else s }

  /** Between two calls anyone may move tokens, except out of the contract's own account. */
  datatype Event = Invoke(now: nat, call: Call) | TokensMoved(balances: Balances)

  ghost predicate Permitted(s: State, ev: Event) {
    match ev
    case Invoke(_, call) => call.CreateEscrow? ==> call.depositor != s.self
    case TokensMoved(b) => forall token :: BalanceOf(b, token, s.self) >= BalanceOf(s.balances, token, s.self)
  }

  function Apply(s: State, ev: Event): State {
    match ev
    case Invoke(now, call) => After(s, Respond(s, now, call))
    case TokensMoved(b) => s.(balances := b)
  }

  function Run(s: State, evs: seq<Event>): State
    decreases |evs|
  {
    if evs == [] then s else Run(Apply(s, evs[0]), evs[1..])
  }

  ghost predicate PermittedRun(s: State, evs: seq<Event>)
    decreases |evs|
  {
    evs != [] ==> Permitted(s, evs[0]) && PermittedRun(Apply(s, evs[0]), evs[1..])
  }

  function Deployed(self: Address, balances: Balances): State {
    State(self, Config(None, None, None, map[], false, []), Book(0, map[], map[], map[], []), balances)
  }

  // ---------------------------------------------------------------- invariant

  function OpenAmount(e: Escrow, token: Address): int {
    if e.terms.token == token && !Closed(e) then e.terms.amount else 0
  }

  /** Sum of the amounts of the escrows 1..n still open in `token`. */
  function OpenSum(escrows: map<nat, Escrow>, n: nat, token: Address): int {
    if n == 0 then 0
    else OpenSum(escrows, n - 1, token) + (if n in escrows then OpenAmount(escrows[n], token) else 0)
  }

  ghost predicate Solvent(balances: Balances, self: Address, b: Book) {
    forall token :: BalanceOf(balances, token, self) >= OpenSum(b.escrows, b.count, token)
  }

  predicate DistinctVoters(votes: seq<Vote>) {
    votes != [] ==>
      DistinctVoters(votes[..|votes| - 1]) && !HasVoted(votes[..|votes| - 1], votes[|votes| - 1].arbitrator)
  }

  ghost predicate RecordOk(e: Escrow) {
    e.terms.amount > 0 && DistinctVoters(e.votes) && (e.status == Active ==> e.votes == [])
  }

  /** The ids 1..n of one party, in creation order. */
  function IdsWhere(escrows: map<nat, Escrow>, n: nat, who: Address, asDepositor: bool): seq<nat> {
    if n == 0 then []
    else IdsWhere(escrows, n - 1, who, asDepositor)
         + (if n in escrows && (if asDepositor then escrows[n].terms.depositor else escrows[n].terms.beneficiary) == who
            then [n] else [])
  }

  ghost predicate Records(b: Book) {
    && (forall id :: id in b.escrows <==> 1 <= id <= b.count)
    && (forall id :: id in b.escrows ==> b.escrows[id].id == id && RecordOk(b.escrows[id]))
  }

  /** p is the one payment its escrow has earned. */
  predicate IsDue(escrows: map<nat, Escrow>, p: Payout) {
    p.id in escrows && Due(p.id, escrows[p.id]) == [p]
  }

  /** The payout log holds every due payment once, and nothing else. */
  ghost predicate PaidExactly(payouts: seq<Payout>, escrows: map<nat, Escrow>) {
    forall p :: multiset(payouts)[p] == if IsDue(escrows, p) then 1 else 0
  }

  ghost predicate Inv(s: State) {
    && Records(s.book)
    && PaidExactly(s.book.payouts, s.book.escrows)
    && Solvent(s.balances, s.self, s.book)
  }

  ghost predicate Indexed(b: Book) {
    && (forall who :: Listed(b.byDepositor, who) == IdsWhere(b.escrows, b.count, who, true))
    && (forall who :: Listed(b.byBeneficiary, who) == IdsWhere(b.escrows, b.count, who, false))
  }

  /** How one record may change in one call under the given panel. */
  ghost predicate Successor(panel: seq<Address>, e: Escrow, f: Escrow) {
    && f.id == e.id && f.terms == e.terms
    && (Closed(e) ==> f == e)
    && (f.status == Active ==> e.status == Active)
    && (f.votes == e.votes || Voted(panel, e, f))
  }

  ghost predicate Voted(panel: seq<Address>, e: Escrow, f: Escrow) {
    && e.status == Disputed && |f.votes| == |e.votes| + 1 && f.votes[..|e.votes|] == e.votes
    && f.votes[|e.votes|].arbitrator in panel && !HasVoted(e.votes, f.votes[|e.votes|].arbitrator)
    && f.status == (match Verdict(panel, f.votes) case Some(outcome) => outcome case None => Disputed)
  }

  ghost predicate Evolves(s: State, after: State) {
    forall id :: id in s.book.escrows ==>
      id in after.book.escrows && Successor(s.config.arbitrators, s.book.escrows[id], after.book.escrows[id])
  }

  // ---------------------------------------------------------------- sums, payments and lists under one change

  lemma {:induction false} OpenSumUpdate(escrows: map<nat, Escrow>, n: nat, id: nat, e: Escrow, token: Address)
    requires id in escrows && id >= 1
    ensures OpenSum(escrows[id := e], n, token)
            == OpenSum(escrows, n, token) + (if id <= n then OpenAmount(e, token) - OpenAmount(escrows[id], token) else 0)
  {
    if n > 0 { OpenSumUpdate(escrows, n - 1, id, e, token); }
  }

  lemma {:induction false} OpenSumAdd(escrows: map<nat, Escrow>, n: nat, id: nat, e: Escrow, token: Address)
    requires id > n
    ensures OpenSum(escrows[id := e], n, token) == OpenSum(escrows, n, token)
  {
    if n > 0 { OpenSumAdd(escrows, n - 1, id, e, token); }
  }

  lemma {:induction false} OpenSumBounds(escrows: map<nat, Escrow>, n: nat, id: nat)
    requires forall k :: k in escrows ==> escrows[k].terms.amount > 0
    ensures forall token :: OpenSum(escrows, n, token) >= 0
    ensures 1 <= id <= n && id in escrows && !Closed(escrows[id]) ==>
              OpenSum(escrows, n, escrows[id].terms.token) >= escrows[id].terms.amount
  {
    if n > 0 { OpenSumBounds(escrows, n - 1, id); }
  }

  lemma {:induction false} IdsWhereUpdate(escrows: map<nat, Escrow>, n: nat, id: nat, e: Escrow, who: Address, asDepositor: bool)
    requires id > n || (id in escrows && e.terms == escrows[id].terms)
    ensures IdsWhere(escrows[id := e], n, who, asDepositor) == IdsWhere(escrows, n, who, asDepositor)
  {
    if n > 0 { IdsWhereUpdate(escrows, n - 1, id, e, who, asDepositor); }
  }

  /** A later version of a stored, still open record. */
  ghost predicate NewVersion(b: Book, e: Escrow) {
    e.id in b.escrows && RecordOk(e) && !Closed(b.escrows[e.id]) && e.terms == b.escrows[e.id].terms
  }

  lemma StoreKeepsInv(s: State, e: Escrow)
    requires Inv(s) && NewVersion(s.book, e) && !Closed(e)
    ensures Inv(s.(book := Stored(s.book, e.id, e)))
  {
    forall token ensures OpenSum(s.book.escrows[e.id := e], s.book.count, token) == OpenSum(s.book.escrows, s.book.count, token) {
      OpenSumUpdate(s.book.escrows, s.book.count, e.id, e, token);
    }
  }

  lemma SolventAmount(s: State, e: Escrow)
    requires Inv(s) && NewVersion(s.book, e)
    ensures 0 <= e.terms.amount <= BalanceOf(s.balances, e.terms.token, s.self)
  {
    OpenSumBounds(s.book.escrows, s.book.count, e.id);
  }

  lemma SettleStaysSolvent(s: State, done: Escrow, balances: Balances)
    requires Records(s.book) && Solvent(s.balances, s.self, s.book)
    requires NewVersion(s.book, done) && Closed(done)
    requires forall t :: t != done.terms.token ==> BalanceOf(balances, t, s.self) == BalanceOf(s.balances, t, s.self)
    requires BalanceOf(balances, done.terms.token, s.self) >= BalanceOf(s.balances, done.terms.token, s.self) - done.terms.amount
    ensures Solvent(balances, s.self, Stored(s.book, done.id, done))
  {
    forall token ensures BalanceOf(balances, token, s.self) >= OpenSum(s.book.escrows[done.id := done], s.book.count, token) {
      OpenSumUpdate(s.book.escrows, s.book.count, done.id, done, token);
    }
  }

  lemma SettlePaysDue(payouts: seq<Payout>, escrows: map<nat, Escrow>, done: Escrow)
    requires PaidExactly(payouts, escrows)
    requires done.id in escrows && !Closed(escrows[done.id]) && Closed(done)
    ensures PaidExactly(payouts + Due(done.id, done), escrows[done.id := done])
  {
    var paid := Due(done.id, done)[0];
    forall p ensures multiset(payouts + Due(done.id, done))[p] == if IsDue(escrows[done.id := done], p) then 1 else 0 {
      assert multiset(payouts + [paid])[p] == multiset(payouts)[p] + (if p == paid then 1 else 0);
      assert p.id != done.id ==> (IsDue(escrows[done.id := done], p) <==> IsDue(escrows, p));
    }
  }

  /** In a consistent state a payout never traps, and keeps the state consistent. */
  lemma PayOutKeepsInv(s: State, e: Escrow, outcome: Status)
    requires Inv(s) && NewVersion(s.book, e) && (outcome == Released || outcome == Refunded)
    ensures PayOut(s, e.id, e, outcome).Success? && Inv(PayOut(s, e.id, e, outcome).value)
  {
    SolventAmount(s, e);
    var done, after := e.(status := outcome), PayOut(s, e.id, e, outcome).value;
    SettlePaysDue(s.book.payouts, s.book.escrows, done);
    SettleStaysSolvent(s, done, after.balances);
    assert after.book.escrows == Stored(s.book, done.id, done).escrows && after.book.payouts == s.book.payouts + Due(done.id, done);
  }

  lemma OpenedPaysNothing(b: Book, terms: Terms)
    requires Records(b) && PaidExactly(b.payouts, b.escrows)
    ensures PaidExactly(b.payouts, Opened(b, terms).escrows)
  {
    forall p ensures IsDue(Opened(b, terms).escrows, p) <==> IsDue(b.escrows, p) {}
  }

  lemma OpenedStaysSolvent(s: State, terms: Terms, balances: Balances)
    requires Records(s.book) && Solvent(s.balances, s.self, s.book)
    requires forall t :: t != terms.token ==> BalanceOf(balances, t, s.self) == BalanceOf(s.balances, t, s.self)
    requires BalanceOf(balances, terms.token, s.self) == BalanceOf(s.balances, terms.token, s.self) + terms.amount
    ensures Solvent(balances, s.self, Opened(s.book, terms))
  {
    var c := Opened(s.book, terms);
    forall token ensures BalanceOf(balances, token, s.self) >= OpenSum(c.escrows, c.count, token) {
      OpenSumAdd(s.book.escrows, s.book.count, c.count, c.escrows[c.count], token);
    }
  }

  // ---------------------------------------------------------------- every call keeps the invariant

  /** What every call owes: consistency, the same contract, and only legal record changes. */
  ghost predicate Keeps(s: State, after: State) {
    Inv(after) && after.self == s.self && Evolves(s, after) && ListsFollow(s.book, after.book)
  }

  /** The per-party lists change only when an escrow is opened. */
  ghost predicate ListsFollow(b: Book, c: Book) {
    || (c.count == b.count && c.byDepositor == b.byDepositor && c.byBeneficiary == b.byBeneficiary)
    || exists terms :: c == Opened(b, terms)
  }

  lemma CreateKeeps(s: State, now: nat, depositor: Address, beneficiary: Address, amount: int,
                    releaseTime: nat, bookingType: nat)
    requires Inv(s) && depositor != s.self
    ensures Keeps(s, After(s, DoCreate(s, now, depositor, beneficiary, amount, releaseTime, bookingType)))
  {
    var o := DoCreate(s, now, depositor, beneficiary, amount, releaseTime, bookingType);
    if o.Success? {
      var terms := o.value.book.escrows[s.book.count + 1].terms;
      OpenedPaysNothing(s.book, terms);
      OpenedStaysSolvent(s, terms, o.value.balances);
      assert o.value.book == Opened(s.book, terms);
    }
  }

  lemma PayOutKeeps(s: State, id: nat, outcome: Status)
    requires Inv(s) && (outcome == Released || outcome == Refunded)
    requires id in s.book.escrows && !Closed(s.book.escrows[id])
    ensures Keeps(s, After(s, PayOut(s, id, s.book.escrows[id], outcome)))
  {
    PayOutKeepsInv(s, s.book.escrows[id], outcome);
  }

  lemma ReleaseKeeps(s: State, now: nat, caller: Address, id: nat)
    requires Inv(s)
    ensures Keeps(s, After(s, DoRelease(s, now, caller, id)))
  {
    if id in s.book.escrows && !Closed(s.book.escrows[id]) { PayOutKeeps(s, id, Released); }
  }

  lemma RefundKeeps(s: State, caller: Address, id: nat)
    requires Inv(s)
    ensures Keeps(s, After(s, DoRefund(s, caller, id)))
  {
    if id in s.book.escrows && !Closed(s.book.escrows[id]) { PayOutKeeps(s, id, Refunded); }
  }

  lemma ExpireKeeps(s: State, now: nat, id: nat)
    requires Inv(s)
    ensures Keeps(s, After(s, DoExpire(s, now, id)))
  {
    if id in s.book.escrows && !Closed(s.book.escrows[id]) { PayOutKeeps(s, id, Refunded); }
  }

  lemma AutoReleaseKeeps(s: State, now: nat, id: nat)
    requires Inv(s)
    ensures Keeps(s, After(s, DoAutoRelease(s, now, id)))
  {
    if id in s.book.escrows && !Closed(s.book.escrows[id]) { PayOutKeeps(s, id, Released); }
  }

  lemma StoreKeeps(s: State, e: Escrow)
    requires Inv(s) && NewVersion(s.book, e) && e.status == Disputed && e.votes == s.book.escrows[e.id].votes
    ensures Keeps(s, s.(book := Stored(s.book, e.id, e)))
  {
    StoreKeepsInv(s, e);
  }

  lemma DisputeKeeps(s: State, now: nat, depositor: Address, id: nat, evidence: nat)
    requires Inv(s)
    ensures Keeps(s, After(s, DoDispute(s, now, depositor, id, evidence)))
  {
    var o := DoDispute(s, now, depositor, id, evidence);
    if o.Success? {
      StoreKeeps(s, s.book.escrows[id].(status := Disputed, disputeTimestamp := now, depositorEvidence := evidence));
    }
  }

  lemma EvidenceKeeps(s: State, caller: Address, id: nat, evidence: nat)
    requires Inv(s)
    ensures Keeps(s, After(s, DoEvidence(s, caller, id, evidence)))
  {
    var o := DoEvidence(s, caller, id, evidence);
    if o.Success? {
      var e := s.book.escrows[id];
      if caller == e.terms.depositor { StoreKeeps(s, e.(depositorEvidence := evidence)); }
      else { StoreKeeps(s, e.(beneficiaryEvidence := evidence)); }
    }
  }

  lemma VoteKeeps(s: State, now: nat, arbitrator: Address, id: nat, decision: Resolution)
    requires Inv(s)
    ensures Keeps(s, After(s, DoVote(s, now, arbitrator, id, decision)))
  {
    var o := DoVote(s, now, arbitrator, id, decision);
    if o.Success? {
      var e := s.book.escrows[id];
      var voted := e.(votes := e.votes + [Vote(arbitrator, decision, now)]);
      assert voted.votes[..|e.votes|] == e.votes;
      var verdict := Verdict(s.config.arbitrators, voted.votes);
      if verdict.Some? { PayOutKeepsInv(s, voted, verdict.value); } else { StoreKeepsInv(s, voted); }
      assert Voted(s.config.arbitrators, e, o.value.book.escrows[id]);
    }
  }

  lemma CallKeeps(s: State, now: nat, call: Call)
    requires Inv(s) && Permitted(s, Invoke(now, call))
    ensures Keeps(s, After(s, Respond(s, now, call)))
  {
    match call
    case CreateEscrow(d, b, amount, releaseTime, bookingType) => CreateKeeps(s, now, d, b, amount, releaseTime, bookingType);
    case Release(caller, id) => ReleaseKeeps(s, now, caller, id);
    case Refund(caller, id) => RefundKeeps(s, caller, id);
    case Dispute(depositor, id, evidence) => DisputeKeeps(s, now, depositor, id, evidence);
    case SubmitEvidence(caller, id, evidence) => EvidenceKeeps(s, caller, id, evidence);
    case VoteResolution(arbitrator, id, decision) => VoteKeeps(s, now, arbitrator, id, decision);
    case ExpireDispute(id) => ExpireKeeps(s, now, id);
    case TryAutoRelease(id) => AutoReleaseKeeps(s, now, id);
    case Initialize(_, _, _) =>
    case Configure(_, _) =>
  }

  lemma EventKeeps(s: State, ev: Event)
    requires Inv(s) && Permitted(s, ev)
    ensures Keeps(s, Apply(s, ev))
  {
    if ev.Invoke? { CallKeeps(s, ev.now, ev.call); }
  }

  /** Main result: over every permitted run the records are sound, the payouts exact and the contract solvent. */
  lemma {:induction false} RunKeepsInv(s: State, evs: seq<Event>)
    requires Inv(s) && PermittedRun(s, evs)
    ensures Inv(Run(s, evs))
    decreases |evs|
  {
    if evs != [] {
      EventKeeps(s, evs[0]);
      RunKeepsInv(Apply(s, evs[0]), evs[1..]);
    }
  }

  /** From deployment on, the contract's balance covers what it still owes, in every token. */
  lemma EveryRunSolvent(self: Address, balances: Balances, evs: seq<Event>)
    requires PermittedRun(Deployed(self, balances), evs)
    ensures var s := Run(Deployed(self, balances), evs);
            && Inv(s)
            && forall token :: BalanceOf(s.balances, token, s.self) >= OpenSum(s.book.escrows, s.book.count, token)
  {
    RunKeepsInv(Deployed(self, balances), evs);
  }

  /** Each escrow is paid at most once, its exact amount, to the party its status names. */
  lemma PaidAtMostOnce(self: Address, balances: Balances, evs: seq<Event>, i: nat, j: nat)
    requires PermittedRun(Deployed(self, balances), evs)
    ensures var b := Run(Deployed(self, balances), evs).book;
            && (i < |b.payouts| ==>
                  && b.payouts[i].id in b.escrows
                  && var e := b.escrows[b.payouts[i].id];
                  && Closed(e)
                  && b.payouts[i].token == e.terms.token && b.payouts[i].amount == e.terms.amount
                  && (e.status == Released ==> b.payouts[i].to == e.terms.beneficiary)
                  && (e.status == Refunded ==> b.payouts[i].to == e.terms.depositor))
            && (i < j < |b.payouts| ==> b.payouts[i].id != b.payouts[j].id)
  {
    EveryRunSolvent(self, balances, evs);
    var b := Run(Deployed(self, balances), evs).book;
    if i < |b.payouts| {
      assert b.payouts[i] in multiset(b.payouts);
      if i < j < |b.payouts| {
        assert b.payouts[j] in multiset(b.payouts);
        if b.payouts[i] == b.payouts[j] { OccursTwice(b.payouts, i, j); }
      }
    }
  }

  lemma OccursTwice(ps: seq<Payout>, i: nat, j: nat)
    requires i < j < |ps| && ps[i] == ps[j]
    ensures multiset(ps)[ps[i]] >= 2
  {
    assert ps == ps[..j] + ps[j..] && ps[j..] == [ps[j]] + ps[j + 1..] && ps[..j][i] == ps[i];
    assert multiset(ps) == multiset(ps[..j]) + (multiset{ps[j]} + multiset(ps[j + 1..]));
  }

  /** Conversely a closed escrow has been paid. */
  lemma ClosedIsPaid(self: Address, balances: Balances, evs: seq<Event>, id: nat)
    requires PermittedRun(Deployed(self, balances), evs)
    ensures var b := Run(Deployed(self, balances), evs).book;
            id in b.escrows ==>
              var e := b.escrows[id];
              && (e.status == Released ==> Payout(id, e.terms.beneficiary, e.terms.token, e.terms.amount) in b.payouts)
              && (e.status == Refunded ==> Payout(id, e.terms.depositor, e.terms.token, e.terms.amount) in b.payouts)
  {
    EveryRunSolvent(self, balances, evs);
    var b := Run(Deployed(self, balances), evs).book;
    if id in b.escrows && Closed(b.escrows[id]) {
      assert IsDue(b.escrows, Due(id, b.escrows[id])[0]);
      assert multiset(b.payouts)[Due(id, b.escrows[id])[0]] == 1;
    }
  }

  /** The per-party lists are exactly that party's escrows, in creation order. */
  lemma {:induction false} RunKeepsIndexes(s: State, evs: seq<Event>)
    requires Inv(s) && Indexed(s.book) && PermittedRun(s, evs)
    ensures Indexed(Run(s, evs).book)
    decreases |evs|
  {
    if evs != [] {
      EventKeeps(s, evs[0]);
      IndexesFollow(s, Apply(s, evs[0]));
      RunKeepsIndexes(Apply(s, evs[0]), evs[1..]);
    }
  }

  lemma IndexesFollow(s: State, after: State)
    requires Inv(s) && Indexed(s.book) && Keeps(s, after)
    ensures Indexed(after.book)
  {
    var b, c := s.book, after.book;
    forall who, d ensures IdsWhere(c.escrows, b.count, who, d) == IdsWhere(b.escrows, b.count, who, d) {
      IdsWhereFollow(b.escrows, c.escrows, b.count, who, d);
    }
    if c.count != b.count {
      var terms :| c == Opened(b, terms);
      OpenedIsIndexed(b, terms);
    }
  }

  lemma {:induction false} IdsWhereFollow(escrows: map<nat, Escrow>, after: map<nat, Escrow>, n: nat, who: Address, asDepositor: bool)
    requires forall id :: 1 <= id <= n ==> id in escrows && id in after && after[id].terms == escrows[id].terms
    ensures IdsWhere(after, n, who, asDepositor) == IdsWhere(escrows, n, who, asDepositor)
  {
    if n > 0 { IdsWhereFollow(escrows, after, n - 1, who, asDepositor); }
  }

  lemma OpenedIsIndexed(b: Book, terms: Terms)
    requires Indexed(b)
    ensures Indexed(Opened(b, terms))
  {
    var c := Opened(b, terms);
    forall who, d ensures IdsWhere(c.escrows, b.count, who, d) == IdsWhere(b.escrows, b.count, who, d) {
      IdsWhereUpdate(b.escrows, b.count, c.count, c.escrows[c.count], who, d);
    }
  }

  /** A settled escrow never changes again, and no call changes the terms of any escrow. */
  lemma {:induction false} SettledIsFinal(s: State, evs: seq<Event>, id: nat)
    requires Inv(s) && PermittedRun(s, evs) && id in s.book.escrows
    ensures id in Run(s, evs).book.escrows
    ensures Run(s, evs).book.escrows[id].terms == s.book.escrows[id].terms
    ensures Closed(s.book.escrows[id]) ==> Run(s, evs).book.escrows[id] == s.book.escrows[id]
    decreases |evs|
  {
    if evs != [] {
      EventKeeps(s, evs[0]);
      SettledIsFinal(Apply(s, evs[0]), evs[1..], id);
    }
  }

  /** The side condition is exact: a self-deposit keeps the contract solvent only out of an equal surplus. */
  lemma SelfDepositSolventIffSurplus(s: State, now: nat, beneficiary: Address, amount: int, releaseTime: nat, bookingType: nat)
    requires Inv(s) && DoCreate(s, now, s.self, beneficiary, amount, releaseTime, bookingType).Success?
    ensures var after := DoCreate(s, now, s.self, beneficiary, amount, releaseTime, bookingType).value;
            var token := s.config.paymentToken.value;
            Solvent(after.balances, after.self, after.book)
            <==> BalanceOf(s.balances, token, s.self) - OpenSum(s.book.escrows, s.book.count, token) >= amount
  {
    var after := DoCreate(s, now, s.self, beneficiary, amount, releaseTime, bookingType).value;
    var id := s.book.count + 1;
    forall token
      ensures OpenSum(after.book.escrows, id, token)
              == OpenSum(s.book.escrows, s.book.count, token) + OpenAmount(after.book.escrows[id], token)
      ensures BalanceOf(after.balances, token, s.self) == BalanceOf(s.balances, token, s.self)
    {
      OpenSumAdd(s.book.escrows, s.book.count, id, after.book.escrows[id], token);
    }
  }

  // ---------------------------------------------------------------- what each call does to its parties

  /** Escrow id is settled: `record` is stored with its final status, and its amount goes from the contract to one party. */
  ghost predicate Settles(s: State, after: State, id: nat, record: Escrow, status: Status, to: Address) {
    && after.config == s.config && after.self == s.self
    && after.book.count == s.book.count
    && after.book.escrows == s.book.escrows[id := record.(status := status)]
    && after.book.payouts == s.book.payouts + [Payout(id, to, record.terms.token, record.terms.amount)]
    && MovesTokens(s.balances, after.balances, record.terms.token, s.self, to, record.terms.amount)
  }

  /** Only this record changes. */
  ghost predicate Rewrites(s: State, after: State, id: nat, record: Escrow) {
    after == s.(book := s.book.(escrows := s.book.escrows[id := record]))
  }

  lemma PayOutDoes(s: State, e: Escrow, outcome: Status)
    requires Inv(s) && NewVersion(s.book, e) && (outcome == Released || outcome == Refunded)
    ensures PayOut(s, e.id, e, outcome).Success?
    ensures Settles(s, PayOut(s, e.id, e, outcome).value, e.id, e, outcome,
                    if outcome == Released then e.terms.beneficiary else e.terms.depositor)
  {
    PayOutKeepsInv(s, e, outcome);
    TransferMoves(s.balances, e.terms.token, s.self, if outcome == Released then e.terms.beneficiary else e.terms.depositor, e.terms.amount);
    hide MovesTokens, Transfer, Inv;
  }

  /** release: by the beneficiary or the admin, from the end of the dispute window on; the beneficiary is paid. */
  lemma ReleaseDoes(s: State, now: nat, caller: Address, id: nat)
    requires Inv(s)
    ensures var o := DoRelease(s, now, caller, id);
            && (o.Success? <==>
                  && !s.config.paused && id in s.book.escrows && s.config.admin.Some?
                  && var e := s.book.escrows[id];
                  && (caller == e.terms.beneficiary || caller == s.config.admin.value) && e.status == Active
                  && e.terms.releaseTime + e.terms.disputeWindow <= Min(now, 0xFFFF_FFFF_FFFF_FFFF))
            && (o.Success? ==> Settles(s, o.value, id, s.book.escrows[id], Released, s.book.escrows[id].terms.beneficiary))
  {
    if id in s.book.escrows && !Closed(s.book.escrows[id]) { PayOutDoes(s, s.book.escrows[id], Released); }
    hide PayOut, Settles, Inv;
  }

  /** refund: by the depositor or the admin, at any time until settled, disputed or not; the depositor is paid. */
  lemma RefundDoes(s: State, caller: Address, id: nat)
    requires Inv(s)
    ensures var o := DoRefund(s, caller, id);
            && (o.Success? <==>
                  && id in s.book.escrows && s.config.admin.Some?
                  && var e := s.book.escrows[id];
                     (caller == e.terms.depositor || caller == s.config.admin.value) && (e.status == Active || e.status == Disputed))
            && (o.Success? ==> Settles(s, o.value, id, s.book.escrows[id], Refunded, s.book.escrows[id].terms.depositor))
  {
    if id in s.book.escrows && !Closed(s.book.escrows[id]) { PayOutDoes(s, s.book.escrows[id], Refunded); }
    hide PayOut, Settles, Inv;
  }

  /** expire_dispute: by anyone, thirty days into a dispute; the depositor is paid. */
  lemma ExpireDoes(s: State, now: nat, id: nat)
    requires Inv(s)
    ensures var o := DoExpire(s, now, id);
            && (o.Success? <==>
                  && !s.config.paused && id in s.book.escrows && s.book.escrows[id].status == Disputed
                  && s.book.escrows[id].disputeTimestamp + 30 * 86_400 <= Min(now, 0xFFFF_FFFF_FFFF_FFFF))
            && (o.Success? ==> Settles(s, o.value, id, s.book.escrows[id], Refunded, s.book.escrows[id].terms.depositor))
  {
    if id in s.book.escrows && !Closed(s.book.escrows[id]) { PayOutDoes(s, s.book.escrows[id], Refunded); }
    hide PayOut, Settles, Inv;
  }

  /** try_auto_release: by anyone, from the release time on; the beneficiary is paid. */
  lemma AutoReleaseDoes(s: State, now: nat, id: nat)
    requires Inv(s)
    ensures var o := DoAutoRelease(s, now, id);
            && (o.Success? <==> id in s.book.escrows && s.book.escrows[id].status == Active && now >= s.book.escrows[id].terms.releaseTime)
            && (o.Success? ==> Settles(s, o.value, id, s.book.escrows[id], Released, s.book.escrows[id].terms.beneficiary))
  {
    if id in s.book.escrows && !Closed(s.book.escrows[id]) { PayOutDoes(s, s.book.escrows[id], Released); }
    hide PayOut, Settles, Inv;
  }

  /** create_escrow: the depositor's tokens move in, and the terms are fixed with the window in force. */
  lemma CreateDoes(s: State, now: nat, depositor: Address, beneficiary: Address, amount: int, releaseTime: nat, bookingType: nat)
    ensures var o := DoCreate(s, now, depositor, beneficiary, amount, releaseTime, bookingType);
            && (o.Success? <==>
                  && !s.config.paused && s.config.paymentToken.Some?
                  && 0 < amount <= BalanceOf(s.balances, s.config.paymentToken.value, depositor))
            && (o.Success? ==>
                  var id, token := s.book.count + 1, s.config.paymentToken.value;
                  var window := if bookingType in s.config.windowConfig then s.config.windowConfig[bookingType]
                                else if s.config.window.Some? then s.config.window.value else 24 * 3600;
                  && o.value.config == s.config && o.value.self == s.self && o.value.book.count == id
                  && o.value.book.escrows ==
                     s.book.escrows[id := Escrow(id, Terms(depositor, beneficiary, token, amount, now, releaseTime, window), Active, 0, [], 0, 0)]
                  && o.value.book.payouts == s.book.payouts
                  && MovesTokens(s.balances, o.value.balances, token, depositor, s.self, amount))
  {
    if s.config.paymentToken.Some? { TransferMoves(s.balances, s.config.paymentToken.value, depositor, s.self, amount); }
    hide MovesTokens, Transfer;
  }

  /** dispute: by the depositor, up to the end of the window. */
  lemma DisputeDoes(s: State, now: nat, depositor: Address, id: nat, evidence: nat)
    ensures var o := DoDispute(s, now, depositor, id, evidence);
            && (o.Success? <==>
                  && !s.config.paused && id in s.book.escrows
                  && var e := s.book.escrows[id];
                  && e.terms.depositor == depositor && e.status == Active
                  && now <= e.terms.releaseTime + e.terms.disputeWindow <= 0xFFFF_FFFF_FFFF_FFFF)
            && (o.Success? ==>
                  Rewrites(s, o.value, id, s.book.escrows[id].(status := Disputed, disputeTimestamp := now, depositorEvidence := evidence)))
  {
  }

  /** submit_evidence: each party replaces its own hash while the dispute is open. */
  lemma EvidenceDoes(s: State, caller: Address, id: nat, evidence: nat)
    ensures var o := DoEvidence(s, caller, id, evidence);
            && (o.Success? <==>
                  && !s.config.paused && id in s.book.escrows
                  && var e := s.book.escrows[id];
                     e.status == Disputed && (caller == e.terms.depositor || caller == e.terms.beneficiary))
            && (o.Success? ==>
                  var e := s.book.escrows[id];
                  Rewrites(s, o.value, id, if caller == e.terms.depositor then e.(depositorEvidence := evidence) else e.(beneficiaryEvidence := evidence)))
  {
  }

  /** The votes, by position, for one side. */
  ghost function Ballots(votes: seq<Vote>, d: Resolution): set<nat> { set k: nat | k < |votes| && votes[k].decision == d }

  lemma BallotsSnoc(votes: seq<Vote>, d: Resolution)
    requires votes != []
    ensures var n := |votes| - 1;
            var front := Ballots(votes[..n], d);
            n !in front && Ballots(votes, d) == front + if votes[n].decision == d then {n} else {}
  {
    forall k: nat | k < |votes| - 1 ensures votes[..|votes| - 1][k] == votes[k] {}
  }

  lemma {:induction false} TallyCountsBallots(votes: seq<Vote>, d: Resolution)
    ensures Tally(votes, d) == |Ballots(votes, d)|
  {
    if votes == [] {
      assert Ballots(votes, d) == {};
    } else {
      hide Ballots;
      TallyCountsBallots(votes[..|votes| - 1], d);
      BallotsSnoc(votes, d);
    }
  }

  /** What follows from a vote once it is recorded. */
  ghost predicate Counted(s: State, after: State, id: nat, voted: Escrow) {
    var panel := s.config.arbitrators;
    if 2 * |Ballots(voted.votes, ToBeneficiary)| > |panel| then Settles(s, after, id, voted, Released, voted.terms.beneficiary)
    else if 2 * |Ballots(voted.votes, ToDepositor)| > |panel| then Settles(s, after, id, voted, Refunded, voted.terms.depositor)
    else Rewrites(s, after, id, voted)
  }

  lemma VerdictDoes(s: State, voted: Escrow)
    requires Inv(s) && NewVersion(s.book, voted)
    ensures match Verdict(s.config.arbitrators, voted.votes)
            case Some(outcome) => var o := PayOut(s, voted.id, voted, outcome); o.Success? && Counted(s, o.value, voted.id, voted)
            case None => Counted(s, s.(book := Stored(s.book, voted.id, voted)), voted.id, voted)
  {
    TallyCountsBallots(voted.votes, ToBeneficiary);
    TallyCountsBallots(voted.votes, ToDepositor);
    PayOutDoes(s, voted, Released);
    PayOutDoes(s, voted, Refunded);
    hide PayOut, Settles, Inv, Tally, Ballots;
  }

  /**
   * vote_resolution: by a member of the panel who has not voted. More than half of the panel for the
   * beneficiary releases to the beneficiary, more than half for the depositor refunds the depositor.
   */
  lemma VoteDoes(s: State, now: nat, arbitrator: Address, id: nat, decision: Resolution)
    requires Inv(s)
    ensures var o := DoVote(s, now, arbitrator, id, decision);
            && (o.Success? <==>
                  && !s.config.paused && id in s.book.escrows && s.book.escrows[id].status == Disputed
                  && arbitrator in s.config.arbitrators
                  && forall k :: 0 <= k < |s.book.escrows[id].votes| ==> s.book.escrows[id].votes[k].arbitrator != arbitrator)
            && (o.Success? ==>
                  var e := s.book.escrows[id];
                  Counted(s, o.value, id, e.(votes := e.votes + [Vote(arbitrator, decision, now)])))
  {
    if id in s.book.escrows && s.book.escrows[id].status == Disputed && !HasVoted(s.book.escrows[id].votes, arbitrator) {
      var e := s.book.escrows[id];
      var voted := e.(votes := e.votes + [Vote(arbitrator, decision, now)]);
      assert voted.votes[..|e.votes|] == e.votes;
      VerdictDoes(s, voted);
    }
    hide PayOut, Counted, Inv, Verdict;
  }

  /** Settings are the admin's alone, and each call changes one. */
  lemma ConfigureDoes(s: State, caller: Address, call: AdminCall)
    ensures var o := DoConfigure(s, caller, call);
            && (o.Success? <==> s.config.admin == Some(caller))
            && (o.Success? ==>
                  match call
                  case SetArbitrators(panel) => o.value == s.(config := s.config.(arbitrators := panel))
                  case SetDisputeWindow(bookingType, seconds) =>
                    o.value == s.(config := s.config.(windowConfig := s.config.windowConfig[bookingType := seconds]))
                  case SetPaused(value) => o.value == s.(config := s.config.(paused := value)))
  {
  }

  /** What each error code says about the call that got it. */
  ghost predicate Explains(s: State, now: nat, call: Call, error: Error) {
    var known := Target(call).Some? && Target(call).value in s.book.escrows;
    var e := if known then Some(s.book.escrows[Target(call).value]) else None;
    match error
    case AdminNotSet => s.config.admin == None
    case EscrowNotFound => Target(call).Some? && !known
    case Unauthorized =>
      (match call
      case Configure(caller, _) => s.config.admin != Some(caller)
      case CreateEscrow(_, _, _, _, _) => s.config.paused
      case Release(caller, _) => s.config.paused || (known && caller != e.value.terms.beneficiary && s.config.admin != Some(caller))
      case Refund(caller, _) => known && caller != e.value.terms.depositor && s.config.admin != Some(caller)
      case Dispute(depositor, _, _) => s.config.paused || (known && depositor != e.value.terms.depositor)
      case SubmitEvidence(caller, _, _) => s.config.paused || (known && caller !in {e.value.terms.depositor, e.value.terms.beneficiary})
      case VoteResolution(arbitrator, _, _) => s.config.paused || arbitrator !in s.config.arbitrators || (known && HasVoted(e.value.votes, arbitrator))
      case _ => s.config.paused)
    case EscrowAlreadyReleased => known && (e.value.status in {Released, Refunded} || (call.Dispute? && e.value.status == Disputed))
    case EscrowInDispute => known && (if call.Release? then e.value.status == Disputed else e.value.status != Disputed)
    case DisputeWindowActive =>
      known && now < if call.Release? then e.value.terms.releaseTime + e.value.terms.disputeWindow else e.value.disputeTimestamp + 2_592_000
    case DisputeWindowExpired => known && now > e.value.terms.releaseTime + e.value.terms.disputeWindow
    case PaymentTokenNotSet => s.config.paymentToken == None
    case InvalidAmount => call.CreateEscrow? && call.amount <= 0
    case NotYetReleasable => known && now < e.value.terms.releaseTime
    case AlreadyProcessed => known && e.value.status != Active
    case Trap =>
      || (call.CreateEscrow? && s.config.paymentToken.Some? && BalanceOf(s.balances, s.config.paymentToken.value, call.depositor) < call.amount)
      || (known && 0xFFFF_FFFF_FFFF_FFFF < if call.ExpireDispute? then e.value.disputeTimestamp + 2_592_000
                                           else e.value.terms.releaseTime + e.value.terms.disputeWindow)
  }

  lemma PayOutNeverTraps(s: State, id: nat)
    requires Inv(s) && id in s.book.escrows && !Closed(s.book.escrows[id])
    ensures PayOut(s, id, s.book.escrows[id], Released).Success? && PayOut(s, id, s.book.escrows[id], Refunded).Success?
  {
    PayOutKeepsInv(s, s.book.escrows[id], Released);
    PayOutKeepsInv(s, s.book.escrows[id], Refunded);
  }

  lemma ReleaseErrorsExplain(s: State, now: nat, call: Call)
    requires Inv(s) && Respond(s, now, call).Failure? && call.Release?
    ensures Explains(s, now, call, Respond(s, now, call).error)
  {
    if call.id in s.book.escrows && !Closed(s.book.escrows[call.id]) { PayOutNeverTraps(s, call.id); }
    hide PayOut, Inv, HasVoted;
  }

  lemma RefundErrorsExplain(s: State, now: nat, call: Call)
    requires Inv(s) && Respond(s, now, call).Failure? && (call.Refund? || call.TryAutoRelease?)
    ensures Explains(s, now, call, Respond(s, now, call).error)
  {
    if call.id in s.book.escrows && !Closed(s.book.escrows[call.id]) { PayOutNeverTraps(s, call.id); }
    hide PayOut, Inv, HasVoted;
  }

  lemma ExpireErrorsExplain(s: State, now: nat, call: Call)
    requires Inv(s) && Respond(s, now, call).Failure? && call.ExpireDispute?
    ensures Explains(s, now, call, Respond(s, now, call).error)
  {
    if call.id in s.book.escrows && !Closed(s.book.escrows[call.id]) { PayOutNeverTraps(s, call.id); }
    hide PayOut, Inv, HasVoted;
  }

  lemma VoteErrorsExplain(s: State, now: nat, call: Call)
    requires Inv(s) && Respond(s, now, call).Failure? && call.VoteResolution?
    ensures Explains(s, now, call, Respond(s, now, call).error)
  {
    VoteDoes(s, now, call.arbitrator, call.id, call.decision);
    hide PayOut, Inv, Verdict, Counted;
  }

  lemma OtherErrorsExplain(s: State, now: nat, call: Call)
    requires Respond(s, now, call).Failure?
    requires call.Initialize? || call.Configure? || call.CreateEscrow? || call.Dispute? || call.SubmitEvidence?
    ensures Explains(s, now, call, Respond(s, now, call).error)
  {
    hide HasVoted;
  }

  /** Every error answered in a consistent state is true of the call. */
  lemma ErrorsExplain(s: State, now: nat, call: Call)
    requires Inv(s) && Respond(s, now, call).Failure?
    ensures Explains(s, now, call, Respond(s, now, call).error)
  {
    hide *;
    if call.VoteResolution? {
      VoteErrorsExplain(s, now, call);
    } else if call.Release? {
      ReleaseErrorsExplain(s, now, call);
    } else if call.Refund? || call.TryAutoRelease? {
      RefundErrorsExplain(s, now, call);
    } else if call.ExpireDispute? {
      ExpireErrorsExplain(s, now, call);
    } else {
      OtherErrorsExplain(s, now, call);
    }
  }

  // ---------------------------------------------------------------- guaranteed settlement

  /** From when one permissionless call settles the escrow. */
  function SettleTime(e: Escrow): nat {
    if e.status == Active then e.terms.releaseTime else e.disputeTimestamp + DISPUTE_TIMEOUT_SECONDS
  }

  function SettleCall(e: Escrow): Call {
    if e.status == Active then TryAutoRelease(e.id) else ExpireDispute(e.id)
  }

  /**
   * An active escrow settles by a call anyone can make exactly from its release time on, paused or
   * not; a disputed one, while unpaused, exactly from the timeout on (if the 64-bit clock reaches it).
   */
  lemma OpenEscrowSettles(s: State, id: nat, now: nat)
    requires Inv(s) && id in s.book.escrows && !Closed(s.book.escrows[id])
    ensures var e := s.book.escrows[id];
            Closed(After(s, Respond(s, now, SettleCall(e))).book.escrows[id])
            <==> now >= SettleTime(e) && (e.status == Disputed ==> !s.config.paused && SettleTime(e) <= U64_MAX)
  {
    if s.book.escrows[id].status == Active {
      PayOutKeepsInv(s, s.book.escrows[id], Released);
    } else {
      PayOutKeepsInv(s, s.book.escrows[id], Refunded);
    }
  }

  // ---------------------------------------------------------------- the depositor's dispute window

  /** No setting is changed, and no refund or dispute of this escrow is asked for; all of it by time `now`. */
  predicate Bystanding(ev: Event, id: nat, now: nat) {
    ev.Invoke? ==>
      && ev.now <= now
      && (match ev.call
          case Configure(_, _) => false
          case Refund(_, other) => other != id
          case Dispute(_, other, _) => other != id
          case _ => true)
  }

  /** An unpaused contract, and an escrow still active by the end of its window. */
  ghost predicate WindowOpen(s: State, id: nat, now: nat) {
    && !s.config.paused && id in s.book.escrows && s.book.escrows[id].status == Active
    && now <= s.book.escrows[id].terms.releaseTime + s.book.escrows[id].terms.disputeWindow <= U64_MAX
  }

  /** The escrow a call is about, if it is about one. */
  function Target(call: Call): Option<nat> {
    match call
    case Release(_, id) => Some(id)
    case Refund(_, id) => Some(id)
    case Dispute(_, id, _) => Some(id)
    case SubmitEvidence(_, id, _) => Some(id)
    case VoteResolution(_, id, _) => Some(id)
    case ExpireDispute(id) => Some(id)
    case TryAutoRelease(id) => Some(id)
    case _ => None
  }

  lemma OtherEscrowsUntouched(s: State, now: nat, call: Call, id: nat)
    requires id in s.book.escrows && Target(call).Some? && Target(call) != Some(id)
    ensures var after := After(s, Respond(s, now, call));
            after.config == s.config && id in after.book.escrows && after.book.escrows[id] == s.book.escrows[id]
  {
    hide Verdict, HasVoted, Transfer, Due;
  }

  /** Before its release time only its depositor and the admin can do anything to an active escrow. */
  lemma BystandersRefused(s: State, ev: Event, id: nat, now: nat)
    requires WindowOpen(s, id, now) && ev.Invoke? && Bystanding(ev, id, now) && Target(ev.call) == Some(id)
    requires now < s.book.escrows[id].terms.releaseTime
    ensures Respond(s, ev.now, ev.call).Failure?
  {
    hide Verdict, HasVoted, PayOut;
  }

  lemma BystandersLeaveEscrow(s: State, ev: Event, id: nat, now: nat)
    requires WindowOpen(s, id, now) && Bystanding(ev, id, now) && id <= s.book.count
    requires now < s.book.escrows[id].terms.releaseTime
    ensures var after := Apply(s, ev);
            !after.config.paused && id in after.book.escrows && after.book.escrows[id] == s.book.escrows[id]
  {
    if ev.Invoke? && Target(ev.call) == Some(id) {
      hide Respond;
      BystandersRefused(s, ev, id, now);
    } else if ev.Invoke? && Target(ev.call).Some? {
      hide Respond;
      OtherEscrowsUntouched(s, ev.now, ev.call, id);
    }
  }

  lemma BystandersLeaveWindow(s: State, ev: Event, id: nat, now: nat)
    requires Inv(s) && Permitted(s, ev) && WindowOpen(s, id, now) && Bystanding(ev, id, now)
    requires now < s.book.escrows[id].terms.releaseTime
    ensures var after := Apply(s, ev);
            Inv(after) && WindowOpen(after, id, now) && after.book.escrows[id] == s.book.escrows[id]
  {
    EventKeeps(s, ev);
    hide Apply, Permitted, Bystanding, PaidExactly, Solvent;
    BystandersLeaveEscrow(s, ev, id, now);
  }

  lemma {:induction false} WindowLasts(s: State, evs: seq<Event>, id: nat, now: nat)
    requires Inv(s) && PermittedRun(s, evs) && WindowOpen(s, id, now)
    requires now < s.book.escrows[id].terms.releaseTime
    requires forall k :: 0 <= k < |evs| ==> Bystanding(evs[k], id, now)
    ensures WindowOpen(Run(s, evs), id, now) && Run(s, evs).book.escrows[id] == s.book.escrows[id]
    decreases |evs|
  {
    if evs != [] {
      hide Inv, WindowOpen, Bystanding, Apply;
      BystandersLeaveWindow(s, evs[0], id, now);
      WindowLasts(Apply(s, evs[0]), evs[1..], id, now);
    }
  }

  /** At `now` the depositor can open a dispute, whatever bystanders did first. */
  ghost predicate DisputeSurvives(s: State, id: nat, now: nat)
    requires id in s.book.escrows
  {
    forall evs :: PermittedRun(s, evs) && (forall k :: 0 <= k < |evs| ==> Bystanding(evs[k], id, now)) ==>
                    DoDispute(Run(s, evs), now, s.book.escrows[id].terms.depositor, id, 0).Success?
  }

  /**
   * Main result: `dispute` is promised until release_time + dispute_window, but the depositor keeps it against
   * bystanders exactly before release_time: from then on anyone's try_auto_release closes the escrow.
   */
  lemma DisputeSurvivesIff(s: State, id: nat, now: nat)
    requires Inv(s) && WindowOpen(s, id, now)
    ensures DisputeSurvives(s, id, now) <==> now < s.book.escrows[id].terms.releaseTime
    ensures DoDispute(s, now, s.book.escrows[id].terms.depositor, id, 0).Success?
  {
    var e := s.book.escrows[id];
    if now < e.terms.releaseTime {
      forall evs | PermittedRun(s, evs) && (forall k :: 0 <= k < |evs| ==> Bystanding(evs[k], id, now))
        ensures DoDispute(Run(s, evs), now, e.terms.depositor, id, 0).Success?
      {
        WindowLasts(s, evs, id, now);
      }
    } else {
      var evs := [Invoke(now, TryAutoRelease(id))];
      assert evs[1..] == [];
      PayOutKeepsInv(s, e, Released);
      assert Run(s, evs) == Apply(s, evs[0]) && PermittedRun(s, evs) && Bystanding(evs[0], id, now);
    }
  }

  // ---------------------------------------------------------------- arbitration

  ghost predicate NoDuplicates(panel: seq<Address>) {
    forall i, j :: 0 <= i < j < |panel| ==> panel[i] != panel[j]
  }

  /** Voters are members of the panel, and no undecided dispute has a majority. */
  ghost predicate VotesWithin(panel: seq<Address>, e: Escrow) {
    && (forall k :: 0 <= k < |e.votes| ==> e.votes[k].arbitrator in panel)
    && (e.status == Disputed ==> Tally(e.votes, ToBeneficiary) <= |panel| / 2 && Tally(e.votes, ToDepositor) <= |panel| / 2)
  }

  predicate ReplacesPanel(ev: Event) {
    ev.Invoke? && (ev.call.Initialize? || (ev.call.Configure? && ev.call.setting.SetArbitrators?))
  }

  lemma SuccessorKeepsVotes(panel: seq<Address>, e: Escrow, f: Escrow)
    requires Successor(panel, e, f) && VotesWithin(panel, e) && RecordOk(e)
    ensures VotesWithin(panel, f)
  {
    if f.votes != e.votes {
      forall k | 0 <= k < |f.votes| ensures f.votes[k].arbitrator in panel {
        if k < |e.votes| { assert f.votes[k] == f.votes[..|e.votes|][k]; }
      }
    }
  }

  lemma PanelStays(s: State, ev: Event)
    requires !ReplacesPanel(ev)
    ensures Apply(s, ev).config.arbitrators == s.config.arbitrators
  {
  }

  /** While the panel is fixed, every dispute that started under it stays within it. */
  lemma {:induction false} RunKeepsVotes(s: State, evs: seq<Event>, id: nat)
    requires Inv(s) && PermittedRun(s, evs) && id in s.book.escrows
    requires s.book.escrows[id].status == Active || VotesWithin(s.config.arbitrators, s.book.escrows[id])
    requires forall k :: 0 <= k < |evs| ==> !ReplacesPanel(evs[k])
    ensures var after := Run(s, evs);
            && after.config.arbitrators == s.config.arbitrators
            && id in after.book.escrows && VotesWithin(after.config.arbitrators, after.book.escrows[id])
    decreases |evs|
  {
    if evs != [] {
      var next := Apply(s, evs[0]);
      EventKeeps(s, evs[0]);
      PanelStays(s, evs[0]);
      SuccessorKeepsVotes(s.config.arbitrators, s.book.escrows[id], next.book.escrows[id]);
      RunKeepsVotes(next, evs[1..], id);
    }
  }

  lemma {:induction false} TalliesAddUp(votes: seq<Vote>)
    ensures Tally(votes, ToBeneficiary) + Tally(votes, ToDepositor) == |votes|
  {
    if votes != [] { TalliesAddUp(votes[..|votes| - 1]); }
  }

  function Voters(votes: seq<Vote>): (vs: seq<Address>)
    ensures |vs| == |votes|
    ensures forall k :: 0 <= k < |vs| ==> vs[k] == votes[k].arbitrator
  {
    seq(|votes|, k requires 0 <= k < |votes| => votes[k].arbitrator)
  }

  lemma {:induction false} VotersDistinct(votes: seq<Vote>)
    requires DistinctVoters(votes)
    ensures NoDuplicates(Voters(votes))
  {
    if votes != [] {
      var n := |votes| - 1;
      VotersDistinct(votes[..n]);
      forall i, j | 0 <= i < j < |votes| ensures Voters(votes)[i] != Voters(votes)[j] {
        if j == n { assert votes[..n][i] == votes[i]; }
        else { assert Voters(votes[..n])[i] != Voters(votes[..n])[j]; }
      }
    }
  }

  /** Pigeonhole: distinct members of a list are no more than the list is long. */
  lemma {:induction false} DistinctFit(xs: seq<Address>, ys: seq<Address>)
    requires NoDuplicates(xs) && forall k :: 0 <= k < |xs| ==> xs[k] in ys
    ensures |xs| <= |ys|
  {
    if xs != [] {
      var n := |xs| - 1;
      var i :| 0 <= i < |ys| && ys[i] == xs[n];
      var rest := ys[..i] + ys[i + 1..];
      forall k | 0 <= k < n ensures xs[..n][k] in rest {
        var j :| 0 <= j < |ys| && ys[j] == xs[k];
        assert j != i;
        assert if j < i then rest[j] == xs[k] else rest[j - 1] == xs[k];
      }
      DistinctFit(xs[..n], rest);
    }
  }

  /** Recorded voters are distinct members, and both sides can never hold a majority. */
  lemma NoTwoMajorities(panel: seq<Address>, e: Escrow)
    requires RecordOk(e) && VotesWithin(panel, e)
    ensures NoDuplicates(Voters(e.votes)) && |e.votes| <= |panel|
    ensures Tally(e.votes, ToBeneficiary) < Majority(panel) || Tally(e.votes, ToDepositor) < Majority(panel)
  {
    VotersDistinct(e.votes);
    DistinctFit(Voters(e.votes), panel);
    TalliesAddUp(e.votes);
  }

  /** An odd duplicate-free panel that has voted to the last member has settled the escrow. */
  lemma OddPanelDecides(panel: seq<Address>, e: Escrow)
    requires RecordOk(e) && VotesWithin(panel, e)
    requires NoDuplicates(panel) && |panel| % 2 == 1
    requires forall k :: 0 <= k < |panel| ==> HasVoted(e.votes, panel[k])
    ensures Closed(e)
  {
    forall k | 0 <= k < |panel| ensures panel[k] in Voters(e.votes) {
      assert HasVoted(e.votes, panel[k]);
      var i :| 0 <= i < |e.votes| && e.votes[i].arbitrator == panel[k];
      assert Voters(e.votes)[i] == panel[k];
    }
    DistinctFit(panel, Voters(e.votes));
    TalliesAddUp(e.votes);
  }

  ghost predicate AllVoted(panel: seq<Address>, s: State, id: nat) {
    id in s.book.escrows && forall k :: 0 <= k < |panel| ==> HasVoted(s.book.escrows[id].votes, panel[k])
  }

  /** A run under a fixed panel, from before an escrow's dispute. */
  ghost predicate UnderPanel(panel: seq<Address>, s: State, evs: seq<Event>, id: nat) {
    && Inv(s) && PermittedRun(s, evs)
    && s.config.arbitrators == panel && id in s.book.escrows && s.book.escrows[id].status == Active
    && forall k :: 0 <= k < |evs| ==> !ReplacesPanel(evs[k])
  }

  /** Over every such run of an odd duplicate-free panel: once all have voted the escrow is settled. */
  lemma OddPanelRunDecides(panel: seq<Address>, s: State, evs: seq<Event>, id: nat)
    requires NoDuplicates(panel) && |panel| % 2 == 1
    requires UnderPanel(panel, s, evs, id) && AllVoted(panel, Run(s, evs), id)
    ensures Closed(Run(s, evs).book.escrows[id])
  {
    RunKeepsInv(s, evs);
    RunKeepsVotes(s, evs, id);
    OddPanelDecides(panel, Run(s, evs).book.escrows[id]);
  }

  lemma {:induction false} RunAppend(s: State, evs: seq<Event>, ev: Event)
    ensures Run(s, evs + [ev]) == Apply(Run(s, evs), ev)
    ensures PermittedRun(s, evs + [ev]) <==> PermittedRun(s, evs) && Permitted(Run(s, evs), ev)
    decreases |evs|
  {
    if evs == [] {
      assert evs + [ev] == [ev] && [ev][1..] == [];
    } else {
      RunAppend(Apply(s, evs[0]), evs[1..], ev);
      assert (evs + [ev])[1..] == evs[1..] + [ev];
    }
  }

  /** The first `half` members vote one way, the others the other way. */
  function SplitDecision(half: nat, k: nat): Resolution { if k < half then ToBeneficiary else ToDepositor }

  function SplitVotes(panel: seq<Address>, half: nat, n: nat): seq<Vote>
    requires n <= |panel|
  {
    if n == 0 then [] else SplitVotes(panel, half, n - 1) + [Vote(panel[n - 1], SplitDecision(half, n - 1), 0)]
  }

  function SplitCalls(panel: seq<Address>, half: nat, n: nat): seq<Event>
    requires n <= |panel|
  {
    if n == 0 then []
    else SplitCalls(panel, half, n - 1) + [Invoke(0, VoteResolution(panel[n - 1], 1, SplitDecision(half, n - 1)))]
  }

  lemma {:induction false} SplitVotesAre(panel: seq<Address>, half: nat, n: nat)
    requires n <= |panel|
    ensures var votes := SplitVotes(panel, half, n);
            && |votes| == n && (forall k :: 0 <= k < n ==> votes[k].arbitrator == panel[k])
            && Tally(votes, ToBeneficiary) == (if n <= half then n else half)
            && Tally(votes, ToDepositor) == (if n <= half then 0 else n - half)
  {
    if n > 0 {
      SplitVotesAre(panel, half, n - 1);
      var front, last := SplitVotes(panel, half, n - 1), Vote(panel[n - 1], SplitDecision(half, n - 1), 0);
      assert (front + [last])[..n - 1] == front;
    }
  }

  /** Escrow 1 is in dispute under this panel, and nobody has voted. */
  ghost predicate InDispute(s: State, panel: seq<Address>) {
    && !s.config.paused && s.config.arbitrators == panel
    && 1 in s.book.escrows && s.book.escrows[1].status == Disputed && s.book.escrows[1].votes == []
  }

  function WithVotes(s: State, votes: seq<Vote>): State
    requires 1 in s.book.escrows
  {
    s.(book := Stored(s.book, 1, s.book.escrows[1].(votes := votes)))
  }

  /** A vote that reaches no verdict is recorded and changes nothing else. */
  lemma UndecidedVote(s: State, panel: seq<Address>, votes: seq<Vote>, arbitrator: Address, decision: Resolution)
    requires InDispute(s, panel) && arbitrator in panel && !HasVoted(votes, arbitrator)
    requires Verdict(panel, votes + [Vote(arbitrator, decision, 0)]).None?
    ensures Apply(WithVotes(s, votes), Invoke(0, VoteResolution(arbitrator, 1, decision)))
            == WithVotes(s, votes + [Vote(arbitrator, decision, 0)])
  {
    hide HasVoted, Verdict;
    var e, all := s.book.escrows[1], votes + [Vote(arbitrator, decision, 0)];
    assert s.book.escrows[1 := e.(votes := votes)][1 := e.(votes := all)] == s.book.escrows[1 := e.(votes := all)];
  }

  /** One more vote of a split panel settles nothing. */
  lemma SplitVoteSettlesNothing(s: State, panel: seq<Address>, half: nat, n: nat)
    requires InDispute(s, panel) && NoDuplicates(panel) && |panel| == 2 * half && n < |panel|
    ensures Apply(WithVotes(s, SplitVotes(panel, half, n)), Invoke(0, VoteResolution(panel[n], 1, SplitDecision(half, n))))
            == WithVotes(s, SplitVotes(panel, half, n + 1))
  {
    hide SplitVotes, Tally, Apply, WithVotes, InDispute;
    SplitVotesAre(panel, half, n);
    SplitVotesAre(panel, half, n + 1);
    SplitVotesGrow(panel, half, n);
    UndecidedVote(s, panel, SplitVotes(panel, half, n), panel[n], SplitDecision(half, n));
  }

  lemma SplitVotesGrow(panel: seq<Address>, half: nat, n: nat)
    requires n < |panel|
    ensures SplitVotes(panel, half, n + 1) == SplitVotes(panel, half, n) + [Vote(panel[n], SplitDecision(half, n), 0)]
  {
  }

  lemma SplitCallsGrow(panel: seq<Address>, half: nat, n: nat)
    requires n < |panel|
    ensures SplitCalls(panel, half, n + 1) == SplitCalls(panel, half, n) + [Invoke(0, VoteResolution(panel[n], 1, SplitDecision(half, n)))]
    ensures forall s: State :: Permitted(s, Invoke(0, VoteResolution(panel[n], 1, SplitDecision(half, n))))
    ensures !ReplacesPanel(Invoke(0, VoteResolution(panel[n], 1, SplitDecision(half, n))))
  {
  }

  lemma NoVotesYet(s: State, panel: seq<Address>, half: nat)
    requires InDispute(s, panel)
    ensures SplitCalls(panel, half, 0) == [] && PermittedRun(s, []) && Run(s, []) == WithVotes(s, SplitVotes(panel, half, 0))
  {
    assert s.book.escrows[1 := s.book.escrows[1]] == s.book.escrows;
  }

  lemma {:induction false} SplitRun(s: State, panel: seq<Address>, half: nat, n: nat)
    requires InDispute(s, panel) && NoDuplicates(panel) && |panel| == 2 * half && n <= |panel|
    ensures var calls := SplitCalls(panel, half, n);
            && PermittedRun(s, calls) && Run(s, calls) == WithVotes(s, SplitVotes(panel, half, n))
            && forall k :: 0 <= k < |calls| ==> !ReplacesPanel(calls[k])
  {
    hide *;
    if n == 0 {
      NoVotesYet(s, panel, half);
    } else {
      SplitCallsGrow(panel, half, n - 1);
      SplitRun(s, panel, half, n - 1);
      SplitVoteSettlesNothing(s, panel, half, n - 1);
      RunAppend(s, SplitCalls(panel, half, n - 1), Invoke(0, VoteResolution(panel[n - 1], 1, SplitDecision(half, n - 1))));
    }
  }

  /** From deployment: somebody else has a token, the admin names the panel, and that token is put in escrow. */
  lemma OpenUnderPanel(self: Address, balances: Balances, panel: seq<Address>, releaseTime: nat, window: nat)
    returns (evs: seq<Event>)
    ensures PermittedRun(Deployed(self, balances), evs)
    ensures var s := Run(Deployed(self, balances), evs);
            && !s.config.paused && s.config.arbitrators == panel
            && 1 in s.book.escrows
            && s.book.escrows[1] == Escrow(1, Terms(self + 1, self + 2, 0, 1, 0, releaseTime, window), Active, 0, [], 0, 0)
  {
    var s0 := Deployed(self, balances);
    var a := TokensMoved(balances[Account(0, self + 1) := 1]);
    var b := Invoke(0, Initialize(self + 3, 0, window));
    var c := Invoke(0, Configure(self + 3, SetArbitrators(panel)));
    var d := Invoke(0, CreateEscrow(self + 1, self + 2, 1, releaseTime, 0));
    assert Run(s0, []) == s0 && PermittedRun(s0, []);
    hide Run, PermittedRun;
    RunAppend(s0, [], a);
    RunAppend(s0, [] + [a], b);
    RunAppend(s0, [] + [a] + [b], c);
    RunAppend(s0, [] + [a] + [b] + [c], d);
    evs := [] + [a] + [b] + [c] + [d];
  }

  /** From deployment: a dispute inside the window fails because a bystander's auto-release came first. */
  lemma WindowIsCutShort() returns (setup: seq<Event>)
    ensures PermittedRun(Deployed(0, map[]), setup)
    ensures var s := Run(Deployed(0, map[]), setup);
            && WindowOpen(s, 1, 1500) && s.book.escrows[1].terms.releaseTime == 1000 && s.book.escrows[1].terms.disputeWindow == 1000
            && DoDispute(s, 1500, 1, 1, 0).Success?
            && DoDispute(Apply(s, Invoke(1500, TryAutoRelease(1))), 1500, 1, 1, 0).Failure?
  {
    setup := OpenUnderPanel(0, map[], [], 1000, 1000);
    EveryRunSolvent(0, map[], setup);
    hide Run, PermittedRun, Deployed;
    var s := Run(Deployed(0, map[]), setup);
    PayOutKeepsInv(s, s.book.escrows[1], Released);
  }

  lemma SplitVotesByAll(panel: seq<Address>, half: nat)
    ensures forall k :: 0 <= k < |panel| ==> HasVoted(SplitVotes(panel, half, |panel|), panel[k])
  {
    SplitVotesAre(panel, half, |panel|);
    var votes := SplitVotes(panel, half, |panel|);
    forall k | 0 <= k < |panel| ensures HasVoted(votes, panel[k]) { assert votes[k].arbitrator == panel[k]; }
  }

  /** Every even duplicate-free panel can have all its votes in, on a run from deployment, and leave the dispute undecided. */
  lemma EvenPanelCanStayUndecided(self: Address, balances: Balances, panel: seq<Address>, half: nat)
    returns (setup: seq<Event>, evs: seq<Event>)
    requires NoDuplicates(panel) && |panel| == 2 * half
    ensures PermittedRun(Deployed(self, balances), setup)
    ensures var s := Run(Deployed(self, balances), setup);
            && UnderPanel(panel, s, evs, 1) && AllVoted(panel, Run(s, evs), 1)
            && Run(s, evs).book.escrows[1].status == Disputed
  {
    setup := OpenUnderPanel(self, balances, panel, 0, 0);
    EveryRunSolvent(self, balances, setup);
    var s := Run(Deployed(self, balances), setup);
    var dispute := Invoke(0, Dispute(self + 1, 1, 0));
    var calls := SplitCalls(panel, half, |panel|);
    var disputed := Apply(s, dispute);
    hide Inv, HasVoted, SplitVotes, SplitCalls, Deployed;
    SplitRun(disputed, panel, half, |panel|);
    evs := [dispute] + calls;
    assert evs[1..] == calls;
    SplitVotesByAll(panel, half);
  }

  /** Main result: that all votes settle the dispute, on every run under the panel, holds exactly for odd panels. */
  lemma FullVoteDecidesIffOdd(panel: seq<Address>)
    requires NoDuplicates(panel)
    ensures |panel| % 2 == 1 <==>
            forall s, evs, id: nat :: UnderPanel(panel, s, evs, id) && AllVoted(panel, Run(s, evs), id) ==>
                                        Closed(Run(s, evs).book.escrows[id])
  {
    if |panel| % 2 == 1 {
      forall s, evs, id: nat | UnderPanel(panel, s, evs, id) && AllVoted(panel, Run(s, evs), id)
        ensures Closed(Run(s, evs).book.escrows[id])
      {
        OddPanelRunDecides(panel, s, evs, id);
      }
    } else {
      var setup, evs := EvenPanelCanStayUndecided(0, map[], panel, |panel| / 2);
      var s := Run(Deployed(0, map[]), setup);
      hide UnderPanel, AllVoted;
      assert !Closed(Run(s, evs).book.escrows[1]);
    }
  }

  // ---------------------------------------------------------------- list views

  function LoadEscrows(escrows: map<nat, Escrow>, ids: seq<nat>): seq<Escrow> {
    if ids == [] then []
    else
      var id := ids[|ids| - 1];
      LoadEscrows(escrows, ids[..|ids| - 1]) + (if id in escrows then [escrows[id]] else [])
  }

  /** A party's list view returns exactly its escrows. */
  lemma {:induction false} ListIsComplete(escrows: map<nat, Escrow>, n: nat, who: Address, asDepositor: bool)
    requires forall id :: id in escrows ==> escrows[id].id == id
    ensures forall e :: e in LoadEscrows(escrows, IdsWhere(escrows, n, who, asDepositor))
                        <==> 1 <= e.id <= n && Belongs(escrows, e, who, asDepositor)
  {
    if n > 0 {
      ListIsComplete(escrows, n - 1, who, asDepositor);
      LoadSplits(escrows, n, who, asDepositor);
    }
  }

  /** Each of them once, in creation order. */
  lemma {:induction false} ListInOrder(escrows: map<nat, Escrow>, n: nat, who: Address, asDepositor: bool)
    requires forall id :: id in escrows ==> escrows[id].id == id
    ensures var listed := LoadEscrows(escrows, IdsWhere(escrows, n, who, asDepositor));
            && (forall i :: 0 <= i < |listed| ==> listed[i].id <= n)
            && (forall i, j :: 0 <= i < j < |listed| ==> listed[i].id < listed[j].id)
  {
    if n > 0 {
      ListInOrder(escrows, n - 1, who, asDepositor);
      LoadSplits(escrows, n, who, asDepositor);
    }
  }

  lemma LoadSplits(escrows: map<nat, Escrow>, n: nat, who: Address, asDepositor: bool)
    requires n > 0 && forall id :: id in escrows ==> escrows[id].id == id
    ensures LoadEscrows(escrows, IdsWhere(escrows, n, who, asDepositor))
            == LoadEscrows(escrows, IdsWhere(escrows, n - 1, who, asDepositor))
               + (if n in escrows && Belongs(escrows, escrows[n], who, asDepositor) then [escrows[n]] else [])
  {
    var ids, all := IdsWhere(escrows, n - 1, who, asDepositor), IdsWhere(escrows, n, who, asDepositor);
    if n in escrows && Belongs(escrows, escrows[n], who, asDepositor) {
      assert all == ids + [n] && all[..|ids|] == ids;
    } else {
      assert all == ids;
    }
  }

  predicate Belongs(escrows: map<nat, Escrow>, e: Escrow, who: Address, asDepositor: bool) {
    e.id in escrows && escrows[e.id] == e && (if asDepositor then e.terms.depositor else e.terms.beneficiary) == who
  }

  // ---------------------------------------------------------------- the contract

  /** The caller's view of a call: the new state and the answer are those of `o`. */
  ghost predicate Answered(before: State, o: Outcome, after: State, r: Result<(), Error>) {
    && after == After(before, o)
    && (o.Success? ==> r == Success(()))
    && (o.Failure? ==> r == Failure(o.error))
  }

  class Contract {
    const self: Address
    var admin: Option<Address>
    var paymentToken: Option<Address>
    var window: Option<nat>
    var windowConfig: map<nat, nat>
    var paused: bool
    var arbitrators: seq<Address>
    var count: nat
    var escrows: map<nat, Escrow>
    var byDepositor: map<Address, seq<nat>>
    var byBeneficiary: map<Address, seq<nat>>
    var payouts: seq<Payout>
    var balances: Balances

    ghost function Abs(): State
      reads this
    {
      State(self, Config(admin, paymentToken, window, windowConfig, paused, arbitrators),
            Book(count, escrows, byDepositor, byBeneficiary, payouts), balances)
    }

    constructor (self: Address, balances: Balances)
      ensures Abs() == Deployed(self, balances)
      ensures Inv(Abs()) && Indexed(Abs().book)
    {
      this.self, this.balances := self, balances;
      admin, paymentToken, window, windowConfig, paused, arbitrators := None, None, None, map[], false, [];
      count, escrows, byDepositor, byBeneficiary, payouts := 0, map[], map[], map[], [];
    }

    method InitializeContract(newAdmin: Address, token: Address, defaultWindow: nat) returns (r: Result<(), Error>)
      modifies this
      ensures Answered(old(Abs()), DoInitialize(old(Abs()), newAdmin, token, defaultWindow), Abs(), r)
    {
      admin, paymentToken, window := Some(newAdmin), Some(token), Some(defaultWindow);
      paused, arbitrators := false, [];
      return Success(());
    }

    method ConfigureContract(caller: Address, setting: AdminCall) returns (r: Result<(), Error>)
      modifies this
      ensures Answered(old(Abs()), DoConfigure(old(Abs()), caller, setting), Abs(), r)
    {
      if admin.None? {
        return Failure(AdminNotSet);
      }
      if caller != admin.value {
        return Failure(Unauthorized);
      }
      match setting {
        case SetArbitrators(panel) => arbitrators := panel;
        case SetDisputeWindow(bookingType, seconds) => windowConfig := windowConfig[bookingType := seconds];
        case SetPaused(value) => paused := value;
      }
      return Success(());
    }

    method CreateEscrowFor(now: nat, depositor: Address, beneficiary: Address, amount: int, releaseTime: nat, bookingType: nat)
      returns (r: Result<(), Error>, id: nat)
      modifies this
      ensures Answered(old(Abs()), DoCreate(old(Abs()), now, depositor, beneficiary, amount, releaseTime, bookingType), Abs(), r)
      ensures r.Success? ==> id == old(count) + 1 == count
    {
      id := 0;
      if paused {
        return Failure(Unauthorized), id;
      }
      if amount <= 0 {
        return Failure(InvalidAmount), id;
      }
      if paymentToken.None? {
        return Failure(PaymentTokenNotSet), id;
      }
      var disputeWindow := DEFAULT_WINDOW;
      if bookingType in windowConfig {
        disputeWindow := windowConfig[bookingType];
      } else if window.Some? {
        disputeWindow := window.value;
      }
      var moved := Transfer(balances, paymentToken.value, depositor, self, amount);
      if moved.None? {
        return Failure(Trap), id;
      }
      balances := moved.value;
      id := Open(Terms(depositor, beneficiary, paymentToken.value, amount, now, releaseTime, disputeWindow));
      r := Success(());
    }

    method Open(terms: Terms) returns (id: nat)
      modifies this
      ensures Abs() == old(Abs()).(book := Opened(old(Abs()).book, terms))
      ensures id == old(count) + 1
    {
      id := count + 1;
      escrows := escrows[id := Escrow(id, terms, Active, 0, [], 0, 0)];
      count := id;
      byDepositor := byDepositor[terms.depositor := Listed(byDepositor, terms.depositor) + [id]];
      byBeneficiary := byBeneficiary[terms.beneficiary := Listed(byBeneficiary, terms.beneficiary) + [id]];
    }

    /** Every payout path: transfer, then store the record with its final status. */
    method Pay(id: nat, e: Escrow, outcome: Status) returns (r: Result<(), Error>)
      requires outcome == Released || outcome == Refunded
      modifies this
      ensures Answered(old(Abs()), PayOut(old(Abs()), id, e, outcome), Abs(), r)
    {
      var to := if outcome == Released then e.terms.beneficiary else e.terms.depositor;
      var moved := Transfer(balances, e.terms.token, self, to, e.terms.amount);
      if moved.None? {
        return Failure(Trap);
      }
      balances := moved.value;
      payouts := payouts + [Payout(id, to, e.terms.token, e.terms.amount)];
      escrows := escrows[id := e.(status := outcome)];
      return Success(());
    }

    method ReleaseEscrow(now: nat, caller: Address, id: nat) returns (r: Result<(), Error>)
      modifies this
      ensures Answered(old(Abs()), DoRelease(old(Abs()), now, caller, id), Abs(), r)
    {
      if paused {
        return Failure(Unauthorized);
      }
      if id !in escrows {
        return Failure(EscrowNotFound);
      }
      var escrow := escrows[id];
      if admin.None? {
        return Failure(AdminNotSet);
      }
      if caller != escrow.terms.beneficiary && caller != admin.value {
        return Failure(Unauthorized);
      }
      if escrow.status == Released || escrow.status == Refunded {
        return Failure(EscrowAlreadyReleased);
      }
      if escrow.status == Disputed {
        return Failure(EscrowInDispute);
      }
      if escrow.terms.releaseTime + escrow.terms.disputeWindow > U64_MAX {
        return Failure(Trap);
      }
      if now < escrow.terms.releaseTime + escrow.terms.disputeWindow {
        return Failure(DisputeWindowActive);
      }
      r := Pay(id, escrow, Released);
    }

    method RefundEscrow(caller: Address, id: nat) returns (r: Result<(), Error>)
      modifies this
      ensures Answered(old(Abs()), DoRefund(old(Abs()), caller, id), Abs(), r)
    {
      if id !in escrows {
        return Failure(EscrowNotFound);
      }
      var escrow := escrows[id];
      if admin.None? {
        return Failure(AdminNotSet);
      }
      if caller != admin.value && caller != escrow.terms.depositor {
        return Failure(Unauthorized);
      }
      if escrow.status == Released || escrow.status == Refunded {
        return Failure(EscrowAlreadyReleased);
      }
      r := Pay(id, escrow, Refunded);
    }

    method DisputeEscrow(now: nat, depositor: Address, id: nat, evidence: nat) returns (r: Result<(), Error>)
      modifies this
      ensures Answered(old(Abs()), DoDispute(old(Abs()), now, depositor, id, evidence), Abs(), r)
    {
      if paused {
        return Failure(Unauthorized);
      }
      if id !in escrows {
        return Failure(EscrowNotFound);
      }
      var escrow := escrows[id];
      if escrow.terms.depositor != depositor {
        return Failure(Unauthorized);
      }
      if escrow.status != Active {
        return Failure(EscrowAlreadyReleased);
      }
      if escrow.terms.releaseTime + escrow.terms.disputeWindow > U64_MAX {
        return Failure(Trap);
      }
      if now > escrow.terms.releaseTime + escrow.terms.disputeWindow {
        return Failure(DisputeWindowExpired);
      }
      escrow := escrow.(status := Disputed, disputeTimestamp := now, depositorEvidence := evidence);
      escrows := escrows[id := escrow];
      return Success(());
    }

    method SubmitEvidenceFor(caller: Address, id: nat, evidence: nat) returns (r: Result<(), Error>)
      modifies this
      ensures Answered(old(Abs()), DoEvidence(old(Abs()), caller, id, evidence), Abs(), r)
    {
      if paused {
        return Failure(Unauthorized);
      }
      if id !in escrows {
        return Failure(EscrowNotFound);
      }
      var escrow := escrows[id];
      if escrow.status != Disputed {
        return Failure(EscrowInDispute);
      }
      if caller == escrow.terms.depositor {
        escrow := escrow.(depositorEvidence := evidence);
      } else if caller == escrow.terms.beneficiary {
        escrow := escrow.(beneficiaryEvidence := evidence);
      } else {
        return Failure(Unauthorized);
      }
      escrows := escrows[id := escrow];
      return Success(());
    }

    method CountVotes(votes: seq<Vote>) returns (releaseVotes: nat, refundVotes: nat)
      ensures releaseVotes == Tally(votes, ToBeneficiary) && refundVotes == Tally(votes, ToDepositor)
    {
      releaseVotes, refundVotes := 0, 0;
      for k := 0 to |votes|
        invariant releaseVotes == Tally(votes[..k], ToBeneficiary) && refundVotes == Tally(votes[..k], ToDepositor)
      {
        assert votes[..k + 1][..k] == votes[..k];
        match votes[k].decision {
          case ToBeneficiary => releaseVotes := releaseVotes + 1;
          case ToDepositor => refundVotes := refundVotes + 1;
        }
      }
      assert votes[..|votes|] == votes;
    }

    method MayVote(arbitrator: Address, votes: seq<Vote>) returns (ok: bool)
      ensures ok <==> arbitrator in arbitrators && !HasVoted(votes, arbitrator)
    {
      var isArbitrator := false;
      for k := 0 to |arbitrators|
        invariant isArbitrator <==> arbitrator in arbitrators[..k]
      {
        if arbitrators[k] == arbitrator {
          isArbitrator := true;
        }
      }
      if !isArbitrator {
        return false;
      }
      for k := 0 to |votes|
        invariant !HasVoted(votes[..k], arbitrator)
      {
        if votes[k].arbitrator == arbitrator {
          return false;
        }
      }
      assert votes[..|votes|] == votes;
      return true;
    }

    method VoteOn(now: nat, arbitrator: Address, id: nat, decision: Resolution) returns (r: Result<(), Error>)
      modifies this
      ensures Answered(old(Abs()), DoVote(old(Abs()), now, arbitrator, id, decision), Abs(), r)
    {
      if paused {
        return Failure(Unauthorized);
      }
      if id !in escrows {
        return Failure(EscrowNotFound);
      }
      var escrow := escrows[id];
      if escrow.status != Disputed {
        return Failure(EscrowInDispute);
      }
      var allowed := MayVote(arbitrator, escrow.votes);
      if !allowed {
        return Failure(Unauthorized);
      }
      escrow := escrow.(votes := escrow.votes + [Vote(arbitrator, decision, now)]);
      var majorityThreshold := |arbitrators| / 2 + 1;
      var releaseVotes, refundVotes := CountVotes(escrow.votes);
      if releaseVotes >= majorityThreshold {
        r := Pay(id, escrow, Released);
      } else if refundVotes >= majorityThreshold {
        r := Pay(id, escrow, Refunded);
      } else {
        escrows := escrows[id := escrow];
        r := Success(());
      }
    }

    method ExpireDisputeOf(now: nat, id: nat) returns (r: Result<(), Error>)
      modifies this
      ensures Answered(old(Abs()), DoExpire(old(Abs()), now, id), Abs(), r)
    {
      if paused {
        return Failure(Unauthorized);
      }
      if id !in escrows {
        return Failure(EscrowNotFound);
      }
      var escrow := escrows[id];
      if escrow.status != Disputed {
        return Failure(EscrowInDispute);
      }
      if escrow.disputeTimestamp + DISPUTE_TIMEOUT_SECONDS > U64_MAX {
        return Failure(Trap);
      }
      if now < escrow.disputeTimestamp + DISPUTE_TIMEOUT_SECONDS {
        return Failure(DisputeWindowActive);
      }
      r := Pay(id, escrow, Refunded);
    }

    method TryAutoReleaseOf(now: nat, id: nat) returns (r: Result<(), Error>)
      modifies this
      ensures Answered(old(Abs()), DoAutoRelease(old(Abs()), now, id), Abs(), r)
    {
      if id !in escrows {
        return Failure(EscrowNotFound);
      }
      var escrow := escrows[id];
      if escrow.status != Active {
        return Failure(AlreadyProcessed);
      }
      if now < escrow.terms.releaseTime {
        return Failure(NotYetReleasable);
      }
      r := Pay(id, escrow, Released);
    }

    /** list_depositor_escrows and list_beneficiary_escrows: `ids` is the party's stored list. */
    method Load(ids: seq<nat>) returns (result: seq<Escrow>)
      ensures result == LoadEscrows(escrows, ids)
    {
      result := [];
      for k := 0 to |ids|
        invariant result == LoadEscrows(escrows, ids[..k])
      {
        assert ids[..k + 1][..k] == ids[..k];
        if ids[k] in escrows {
          result := result + [escrows[ids[k]]];
        }
      }
      assert ids[..|ids|] == ids;
    }
  }
}
