/** The order-intake service: `POST /api/order` (validation, order construction,
    `saveOrder`, best-effort notification, acknowledgement) and `GET /admin/orders`.
    The orders file is abstracted to what its content parses to; the id generator, the
    clock, the outcome of the file write and the environment are parameters. */
module OrderIntake {
  import opened Wrappers
  import opened Text
  import Email

  /* ---------------------------------------------------------------- request values */

  /** A field of the JSON body (after `req.body || {}`) or of the query string:
      absent (`undefined`), a string, or any other JSON value, given by its JavaScript
      truthiness and by its `String(...)` coercion. The coercion is `None` when it
      throws: an object whose `toString` is not callable, such as `{"toString": 1}`,
      or an array holding one, has no string value. */
  datatype Field = Absent | Str(s: string) | Other(truthy: bool, text: Option<string>)

  /** JavaScript truthiness; `!f` is its negation. */
  predicate Truthy(f: Field) {
    match f
    case Absent => false
    case Str(s) => |s| > 0
    case Other(t, _) => t
  }

  /** `String(f)`: the coercion `RegExp.prototype.test` applies to its argument, or
      `None` when it throws a `TypeError`. */
  function AsText(f: Field): (r: Option<string>)
    ensures f.Str? ==> r == Some(f.s)
    ensures r.None? ==> f.Other?
  {
    match f
    case Absent => Some("undefined")
    case Str(s) => Some(s)
    case Other(_, t) => t
  }

  /** The email's coercion succeeds and its text has the shape of an address. */
  predicate ShapedEmail(email: Field) {
    AsText(email).Some? && Email.WellShaped(AsText(email).value)
  }

  /** The body of `POST /api/order`; a missing body is two absent fields. */
  datatype Request = Request(pkg: Field, email: Field)

  /* ---------------------------------------------------------------- plans and prices */

  /** The packages an order may name. */
  datatype Plan = Bronze | Silver | Gold {
    /** The package string a request carries for this plan. */
    function Name(): string {
      match this
      case Bronze => "Bronze"
      case Silver => "Silver"
      case Gold => "Gold"
    }
  }

  /** The `allowed` list of the handler. */
  const AllowedNames: seq<string> := ["Bronze", "Silver", "Gold"]

  /** `allowed.includes(pkg)`: strict equality, so only a string naming a plan passes. */
  function ParsePlan(f: Field): (r: Option<Plan>)
    ensures r.Some? <==> f.Str? && f.s in AllowedNames
    ensures r.Some? ==> f == Str(r.value.Name())
  {
    if f == Str("Bronze") then Some(Bronze)
    else if f == Str("Silver") then Some(Silver)
    else if f == Str("Gold") then Some(Gold)
    else None
  }

  /** Every plan name parses back to its plan. */
  lemma ParsePlanName(p: Plan)
    ensures ParsePlan(Str(p.Name())) == Some(p)
  {
  }

  /** The amount expression of the handler: a chain of string comparisons that sends
      every string other than `Bronze` and `Silver` to the Gold amount. */
  function AmountFor(pkg: string): string {
    if pkg == "Bronze" then "68$" else if pkg == "Silver" then "112$" else "500$"
  }

  /** The order price of each plan. These are not the prices the catalog shows. */
  const OrderPrice: map<Plan, string> := map[Bronze := "68$", Silver := "112$", Gold := "500$"]

  /* ---------------------------------------------------------------- validation */

  /** Why a submission was refused; each is answered with status 400. */
  datatype Rejection = MissingField | InvalidEmail | InvalidPackage

  /** The outcome of the checks: an accepted plan, a rejection, or an exception
      (`Throws`) raised while the email pattern coerces the email to a string. */
  datatype Verdict = Accept(plan: Plan) | Reject(reason: Rejection) | Throws

  /** The three checks in their fixed order: presence of both fields, the email
      pattern, package membership. The first that fails decides the rejection; an
      email whose coercion throws ends the checks with an exception. */
  function Validate(pkg: Field, email: Field): (r: Verdict)
    ensures r.Accept? ==> pkg == Str(r.plan.Name())
  {
    if !Truthy(pkg) || !Truthy(email) then Reject(MissingField)
    else match AsText(email)
      case None => Throws
      case Some(text) =>
        if !Email.MatchesPattern(text) then Reject(InvalidEmail)
        else match ParsePlan(pkg)
          case None => Reject(InvalidPackage)
          case Some(p) => Accept(p)
  }

  /** What each verdict means, stated with the shape of an address instead of the
      regular expression: a missing field wins over everything, then an email whose
      coercion throws, then a malformed email, then a package outside the allowed list;
      everything else is accepted. */
  lemma ValidateMeaning(pkg: Field, email: Field)
    ensures Validate(pkg, email) == Reject(MissingField) <==> !Truthy(pkg) || !Truthy(email)
    ensures Validate(pkg, email).Throws? <==> Truthy(pkg) && Truthy(email) && AsText(email).None?
    ensures Validate(pkg, email) == Reject(InvalidEmail) <==>
      Truthy(pkg) && Truthy(email) && AsText(email).Some? && !ShapedEmail(email)
    ensures Validate(pkg, email) == Reject(InvalidPackage) <==>
      Truthy(pkg) && Truthy(email) && ShapedEmail(email)
      && !(pkg.Str? && pkg.s in AllowedNames)
    ensures Validate(pkg, email).Accept? <==>
      Truthy(email) && ShapedEmail(email) && pkg.Str? && pkg.s in AllowedNames
  {
    if AsText(email).Some? {
      Email.MatchesPatternIff(AsText(email).value);
    }
  }

  /** Short-circuit order: a bad email is reported even when the package is also bad. */
  lemma EmailReportedBeforePackage(pkg: Field, email: Field)
    requires Truthy(pkg) && Truthy(email)
    requires AsText(email).Some? && !ShapedEmail(email)
    requires ParsePlan(pkg).None?
    ensures Validate(pkg, email) == Reject(InvalidEmail)
  {
    ValidateMeaning(pkg, email);
  }

  /* ---------------------------------------------------------------- orders */

  /** The advisory note every order carries. */
  const PaymentNote: string := "پرداخت باید دقیقاً مطابق مبلغ ذکر شده انجام شود"

  /** A persisted order. `email` is the request value as received. */
  datatype Order = Order(
    id: string,
    package: string,
    email: Field,
    timestamp: string,
    contractAddress: Option<string>,
    amount: string,
    note: string)

  /** The environment variables the handlers consult. */
  datatype Env = Env(
    contractAddress: Option<string>,
    ownerEmail: Option<string>,
    adminToken: Option<string>,
    smtpHost: Option<string>,
    smtpUser: Option<string>,
    smtpPass: Option<string>)

  /** An environment variable that is set to a non-empty string (truthy). */
  predicate EnvSet(v: Option<string>) {
    v.Some? && |v.value| > 0
  }

  /** How `writeFileSync` ends. `Written`: the new content is on disk. `Untouched`:
      the open failed, so the file is as it was. `Truncated`: the open (flag `'w'`)
      emptied the file and the write then failed, leaving it empty or, when `partial`,
      holding a prefix of the new JSON text, which does not parse. */
  datatype WriteOutcome = Written | Untouched | Truncated(partial: bool)

  /** What one submission draws from outside the handler: the generated id
      (`Date.now` and `Math.random`), the ISO timestamp, and how the write of the
      orders file ends. */
  datatype Effects = Effects(id: string, timestamp: string, write: WriteOutcome)

  /** The order object of an accepted submission. */
  function BuildOrder(plan: Plan, email: Field, fx: Effects, env: Env): (o: Order)
    ensures o.package == plan.Name() && o.email == email
    ensures o.amount == OrderPrice[plan]
    ensures o.id == fx.id && o.timestamp == fx.timestamp
    ensures o.note == PaymentNote
    ensures o.contractAddress.Some? <==> EnvSet(env.contractAddress)
    ensures o.contractAddress.Some? ==> o.contractAddress == env.contractAddress
  {
    Order(
      fx.id,
      plan.Name(),
      email,
      fx.timestamp,
      if EnvSet(env.contractAddress) then env.contractAddress else None,
      AmountFor(plan.Name()),
      PaymentNote)
  }

  /* ---------------------------------------------------------------- the orders file */

  /** What the orders file holds, as far as the handlers can tell: no file, an empty
      file, content that cannot be read or parsed, JSON that is not an array (`{}`,
      `null`, a number, ...), or an array of orders. */
  datatype Backing = Missing | Empty | Corrupt | NonArray | Valid(orders: seq<Order>)

  /** What the admin listing reads from the file. */
  datatype Read = Records(orders: seq<Order>) | NotAnArray | Unreadable

  /** The listing's read: a missing file reads as `'[]'`, an empty one as `[]`; a parse
      error is not recovered. */
  function ReadAll(b: Backing): Read {
    match b
    case Missing => Records([])
    case Empty => Records([])
    case Corrupt => Unreadable
    case NonArray => NotAnArray
    case Valid(s) => Records(s)
  }

  /** Outcome of `saveOrder`: the file afterwards, or an exception. `arr.push` sits
      outside both `try` blocks, so a parsed value that is not an array throws. */
  datatype Saved = Stored(after: Backing) | Threw

  /** `saveOrder`: read-modify-write of the orders file. Unlike the listing, a read or
      parse error is recovered as `[]`, which discards the unreadable content. A failed
      write is logged and swallowed: a failed open leaves the file as it was, while a
      write that fails after the truncating open leaves no earlier record readable. */
  function SaveOrder(b: Backing, order: Order, w: WriteOutcome): (r: Saved)
    ensures r.Threw? <==> ReadAll(b).NotAnArray?
    ensures w.Written? && ReadAll(b).Records? ==> r == Stored(Valid(ReadAll(b).orders + [order]))
    ensures w.Written? && ReadAll(b).Unreadable? ==> r == Stored(Valid([order]))
    ensures w.Untouched? && !ReadAll(b).NotAnArray? ==> r == Stored(b)
    ensures w.Truncated? && !ReadAll(b).NotAnArray? ==>
      && r.Stored?
      && (ReadAll(r.after) == Records([]) <==> !w.partial)
      && (ReadAll(r.after).Unreadable? <==> w.partial)
  {
    var base := match b
      case Valid(s) => Some(s)
      case NonArray => None
      case _ => Some([]);
    match base
    case None => Threw
    case Some(arr) =>
      assert [] + [order] == [order];
      match w
      case Written => Stored(Valid(arr + [order]))
      case Untouched => Stored(b)
      case Truncated(partial) => Stored(if partial then Corrupt else Empty)
  }

  /* ---------------------------------------------------------------- POST /api/order */

  const MissingFieldMessage: string := "package و email لازم است"
  const InvalidEmailMessage: string := "ایمیل نامعتبر است"
  const InvalidPackageMessage: string := "پکیج نامعتبر"
  const ServerErrorMessage: string := "خطای سرور"
  const AckMessage: string := "سفارش ثبت شد. ما به زودی با شما تماس خواهیم گرفت."
  const UnauthorizedMessage: string := "Unauthorized"
  const ReadErrorMessage: string := "خطا در خواندن سفارش‌ها"
  const DefaultOwner: string := "planvestfirst@gmail.com"

  /** The `error` string of each rejection. */
  function RejectionMessage(why: Rejection): string {
    match why
    case MissingField => MissingFieldMessage
    case InvalidEmail => InvalidEmailMessage
    case InvalidPackage => InvalidPackageMessage
  }

  /** A JSON response: `{ok:true, message}`, `{ok:false, error}`, `{ok:true, orders}`
      with an array, or `{ok:true, orders}` with whatever non-array value the file held. */
  datatype Body = Ack(message: string) | Error(error: string) | OrderList(orders: seq<Order>) | RawList

  datatype Response = Response(status: int, body: Body)

  /** The notification attempt: recipient and order. Delivery may still fail; that
      failure is logged and never reaches the response. */
  datatype Mail = Mail(to: string, order: Order)

  /** Everything one submission produces. */
  datatype Outcome = Outcome(response: Response, store: Backing, mail: Option<Mail>)

  /** `createTransporter` returns a transporter only when host, user and password are
      all set. */
  predicate SmtpConfigured(env: Env) {
    EnvSet(env.smtpHost) && EnvSet(env.smtpUser) && EnvSet(env.smtpPass)
  }

  /** `OWNER_EMAIL`, or the built-in operator address. */
  function Owner(env: Env): string {
    if EnvSet(env.ownerEmail) then env.ownerEmail.value else DefaultOwner
  }

  /** The `POST /api/order` handler. Nothing is written and no mail is attempted
      unless all three checks pass; an accepted order is saved, then mailed when SMTP is
      configured, then acknowledged with one fixed message. An exception, from the
      email's coercion or from `saveOrder`, is answered with 500. */
  function Submit(store: Backing, req: Request, fx: Effects, env: Env): (r: Outcome)
    ensures r.response.status == 400 <==> Validate(req.pkg, req.email).Reject?
    ensures r.response.status == 400 ==>
      r.response.body == Error(RejectionMessage(Validate(req.pkg, req.email).reason))
    ensures r.response.status == 500 <==>
      || Validate(req.pkg, req.email).Throws?
      || (Validate(req.pkg, req.email).Accept? && ReadAll(store).NotAnArray?)
    ensures r.response.status == 500 ==> r.response.body == Error(ServerErrorMessage)
    ensures r.response.status in {200, 400, 500}
    ensures r.response.status != 200 ==> r.store == store && r.mail.None?
    ensures r.response.status == 200 ==> r.response.body == Ack(AckMessage)
    ensures r.store != store ==> r.response.status == 200 && !fx.write.Untouched?
    ensures r.response.status == 200 && fx.write.Written? ==>
      && Validate(req.pkg, req.email).Accept?
      && r.store.Valid? && |r.store.orders| > 0
      && r.store.orders[|r.store.orders| - 1]
         == BuildOrder(Validate(req.pkg, req.email).plan, req.email, fx, env)
    ensures r.response.status == 200 && fx.write.Truncated? ==>
      r.store == (if fx.write.partial then Corrupt else Empty)
    ensures r.mail.Some? <==> r.response.status == 200 && SmtpConfigured(env)
    ensures r.mail.Some? ==>
      && Validate(req.pkg, req.email).Accept?
      && r.mail.value
         == Mail(Owner(env), BuildOrder(Validate(req.pkg, req.email).plan, req.email, fx, env))
  {
    match Validate(req.pkg, req.email)
    case Reject(why) => Outcome(Response(400, Error(RejectionMessage(why))), store, None)
    case Throws => Outcome(Response(500, Error(ServerErrorMessage)), store, None)
    case Accept(plan) =>
      var order := BuildOrder(plan, req.email, fx, env);
      match SaveOrder(store, order, fx.write)
      case Threw => Outcome(Response(500, Error(ServerErrorMessage)), store, None)
      case Stored(after) =>
        var mail := if SmtpConfigured(env) then Some(Mail(Owner(env), order)) else None;
        Outcome(Response(200, Ack(AckMessage)), after, mail)
  }

  /** The acknowledgement is uniform: two accepted submissions against stores that can
      be appended to get the same response, whatever their emails, ids, clocks, write
      outcomes and mail settings. In particular it never carries the customer's email. */
  lemma AcknowledgementIsUniform(
    s1: Backing, q1: Request, f1: Effects, e1: Env,
    s2: Backing, q2: Request, f2: Effects, e2: Env)
    requires Validate(q1.pkg, q1.email).Accept? && !ReadAll(s1).NotAnArray?
    requires Validate(q2.pkg, q2.email).Accept? && !ReadAll(s2).NotAnArray?
    ensures Submit(s1, q1, f1, e1).response == Submit(s2, q2, f2, e2).response
    ensures Submit(s1, q1, f1, e1).response == Response(200, Ack(AckMessage))
  {
  }

  /* ---------------------------------------------------------------- GET /admin/orders */

  /** `req.query.token || ''`. */
  function PresentedToken(f: Field): Field {
    if Truthy(f) then f else Str("")
  }

  /** The admin check: `ADMIN_TOKEN` must be set and non-empty, and the presented
      token must be strictly equal to it. */
  predicate Authorized(token: Field, env: Env) {
    EnvSet(env.adminToken) && PresentedToken(token) == Str(env.adminToken.value)
  }

  /** The admin listing. Without authorization the answer is 401 whatever the file
      holds. With it, the orders are returned in file order; a missing or empty file
      lists as `[]`, while unreadable content gives 500, unlike `saveOrder`. */
  function ListOrders(store: Backing, token: Field, env: Env): (r: Response)
    ensures r.status == 401 <==>
      !(env.adminToken.Some? && |env.adminToken.value| > 0 && token == Str(env.adminToken.value))
    ensures r.status == 401 ==> r.body == Error(UnauthorizedMessage)
    ensures r.status != 401 ==>
      && (r.status == 500 <==> ReadAll(store).Unreadable?)
      && (store.Missing? || store.Empty? ==> r == Response(200, OrderList([])))
      && (ReadAll(store).Records? ==> r == Response(200, OrderList(ReadAll(store).orders)))
      && (ReadAll(store).NotAnArray? ==> r == Response(200, RawList))
  {
    if !Authorized(token, env) then Response(401, Error(UnauthorizedMessage))
    else match ReadAll(store)
      case Unreadable => Response(500, Error(ReadErrorMessage))
      case NotAnArray => Response(200, RawList)
      case Records(s) => Response(200, OrderList(s))
  }

  /* ---------------------------------------------------------------- sequences of submissions */

  /** One submission with the values it draws from outside. */
  datatype Submission = Submission(req: Request, fx: Effects)

  /** The orders file after handling `subs` one at a time, in order. */
  function Replay(store: Backing, subs: seq<Submission>, env: Env): Backing
    decreases |subs|
  {
    if |subs| == 0 then store
    else
      var last := subs[|subs| - 1];
      Submit(Replay(store, subs[..|subs| - 1], env), last.req, last.fx, env).store
  }

  /** The submission passes all three checks. */
  predicate Accepted(sub: Submission) {
    Validate(sub.req.pkg, sub.req.email).Accept?
  }

  /** The order an accepted submission builds. */
  function OrderOf(sub: Submission, env: Env): Order
    requires Accepted(sub)
  {
    BuildOrder(Validate(sub.req.pkg, sub.req.email).plan, sub.req.email, sub.fx, env)
  }

  /** The record one submission adds to the log: its order when accepted, none when
      rejected. */
  function Recorded(sub: Submission, env: Env): seq<Order> {
    if Accepted(sub) then [OrderOf(sub, env)] else []
  }

  /** The orders the accepted submissions of `subs` build, in submission order. */
  function AcceptedOrders(subs: seq<Submission>, env: Env): seq<Order>
    decreases |subs|
  {
    if |subs| == 0 then []
    else AcceptedOrders(subs[..|subs| - 1], env) + Recorded(subs[|subs| - 1], env)
  }

  /** One step of the log: a submission against a readable store whose write succeeds
      leaves a readable store holding the earlier records followed by its own. */
  lemma SubmitStep(store: Backing, sub: Submission, env: Env)
    requires ReadAll(store).Records?
    requires sub.fx.write.Written?
    ensures ReadAll(Submit(store, sub.req, sub.fx, env).store)
         == Records(ReadAll(store).orders + Recorded(sub, env))
  {
  }

  /** The log is append-only and ordered: starting from a readable store, and with
      every write succeeding, the listing afterwards reads the earlier records unchanged
      followed by one record per accepted submission, in submission order. Rejected
      submissions leave no record. */
  lemma {:induction false} ReplayAppends(store: Backing, subs: seq<Submission>, env: Env)
    requires ReadAll(store).Records?
    requires forall i | 0 <= i < |subs| :: subs[i].fx.write.Written?
    ensures ReadAll(Replay(store, subs, env)) == Records(ReadAll(store).orders + AcceptedOrders(subs, env))
    decreases |subs|
  {
    if |subs| > 0 {
      var init := subs[..|subs| - 1];
      var last := subs[|subs| - 1];
      ReplayAppends(store, init, env);
      SubmitStep(Replay(store, init, env), last, env);
      assert ReadAll(store).orders + AcceptedOrders(subs, env)
          == ReadAll(store).orders + AcceptedOrders(init, env) + Recorded(last, env);
    }
  }

  /** When every submission is accepted, there is exactly one record per submission,
      in submission order, and record `i` is the order built from submission `i`: its
      package and email, its server-assigned id and timestamp, and its plan's amount. */
  lemma {:induction false} AllAcceptedRecorded(subs: seq<Submission>, env: Env)
    requires forall i | 0 <= i < |subs| :: Accepted(subs[i])
    ensures |AcceptedOrders(subs, env)| == |subs|
    ensures forall i | 0 <= i < |subs| :: AcceptedOrders(subs, env)[i] == OrderOf(subs[i], env)
    decreases |subs|
  {
    if |subs| > 0 {
      var init := subs[..|subs| - 1];
      AllAcceptedRecorded(init, env);
      assert AcceptedOrders(subs, env) == AcceptedOrders(init, env) + [OrderOf(subs[|subs| - 1], env)];
      forall i | 0 <= i < |subs|
        ensures AcceptedOrders(subs, env)[i] == OrderOf(subs[i], env)
      {
        if i < |init| {
          assert subs[i] == init[i];
        }
      }
    }
  }

  /** Round trip through the admin listing: with the right token, the listing after a
      run of submissions returns the earlier records followed by the accepted orders. */
  lemma ListingAfterReplay(store: Backing, subs: seq<Submission>, env: Env)
    requires ReadAll(store).Records?
    requires forall i | 0 <= i < |subs| :: subs[i].fx.write.Written?
    requires EnvSet(env.adminToken)
    ensures ListOrders(Replay(store, subs, env), Str(env.adminToken.value), env)
         == Response(200, OrderList(ReadAll(store).orders + AcceptedOrders(subs, env)))
  {
    ReplayAppends(store, subs, env);
  }

  /** A write that fails after the truncating open loses the log: whatever the file
      held, the next successful save starts from `[]`, so the file then lists only the
      later submission's order. */
  lemma {:induction false} TruncationLosesEarlierOrders(
    store: Backing, first: Submission, second: Submission, env: Env)
    requires !ReadAll(store).NotAnArray?
    requires Accepted(first) && first.fx.write.Truncated?
    requires Accepted(second) && second.fx.write.Written?
    ensures ReadAll(Replay(store, [first, second], env)) == Records([OrderOf(second, env)])
  {
    assert [first][..0] == [] && [first, second][..1] == [first];
    assert Replay(store, [], env) == store;
    var mid := Replay(store, [first], env);
    assert mid == Submit(store, first.req, first.fx, env).store;
    if ReadAll(mid).Records? {
      assert ReadAll(mid) == Records([]);
      SubmitStep(mid, second, env);
      assert [] + Recorded(second, env) == Recorded(second, env);
    }
  }

  /** No two orders share an id. */
  predicate DistinctIds(s: seq<Order>) {
    forall i, j | 0 <= i < j < |s| :: s[i].id != s[j].id
  }

  /** The orders a store lists (none when it does not list). */
  function StoredOrders(b: Backing): seq<Order> {
    if ReadAll(b).Records? then ReadAll(b).orders else []
  }

  /** The code does not make ids unique; given a fresh id, a submission keeps the ids
      of the log distinct. */
  lemma SubmitKeepsIdsDistinct(store: Backing, req: Request, fx: Effects, env: Env)
    requires DistinctIds(StoredOrders(store))
    requires forall i | 0 <= i < |StoredOrders(store)| :: StoredOrders(store)[i].id != fx.id
    ensures DistinctIds(StoredOrders(Submit(store, req, fx, env).store))
  {
  }

  /* ---------------------------------------------------------------- worked examples */

  /** `{package: "Bronze", email: "a@b.com"}` is acknowledged and adds one record,
      priced at the Bronze amount, after the existing ones. */
  lemma BronzeExample(store: Backing, fx: Effects, env: Env)
    requires ReadAll(store).Records? && fx.write.Written?
    ensures var r := Submit(store, Request(Str("Bronze"), Str("a@b.com")), fx, env);
      && r.response == Response(200, Ack(AckMessage))
      && ReadAll(r.store).Records?
      && |ReadAll(r.store).orders| == |ReadAll(store).orders| + 1
      && ReadAll(r.store).orders[|ReadAll(store).orders|].amount == "68$"
  {
    assert Email.SplitsAt("a@b.com", 1, 3);
  }

  /** `{package: "Gold", email: "not-an-email"}` is refused as a bad email and
      changes nothing. */
  lemma MalformedEmailExample(store: Backing, fx: Effects, env: Env)
    ensures Submit(store, Request(Str("Gold"), Str("not-an-email")), fx, env)
         == Outcome(Response(400, Error(InvalidEmailMessage)), store, None)
  {
  }

  /** `{package: "Gold", email: {"toString": 1}}`: the email pattern's coercion throws,
      so the handler answers 500 and changes nothing. */
  lemma UncoercibleEmailExample(store: Backing, fx: Effects, env: Env)
    ensures Submit(store, Request(Str("Gold"), Other(true, None)), fx, env)
         == Outcome(Response(500, Error(ServerErrorMessage)), store, None)
  {
  }

  /** `{package: "Platinum", email: "a@b.com"}` is refused as a bad package and
      changes nothing. */
  lemma UnknownPackageExample(store: Backing, fx: Effects, env: Env)
    ensures Submit(store, Request(Str("Platinum"), Str("a@b.com")), fx, env)
         == Outcome(Response(400, Error(InvalidPackageMessage)), store, None)
  {
    assert Email.SplitsAt("a@b.com", 1, 3);
  }
}
