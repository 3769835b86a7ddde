/**
 * What the size limits promise of the books a what-if request makes on the way
 * (api/workload.py, risk/incremental_var.py; the models of domain/models.py say how a body is read).
 */
module WhatIfRequests {
  import opened Wrappers
  import opened Builtin
  import opened WhatIf
  import opened Workload

  // ----- how a body is read -----

  predicate ReadsText(o: Json, name: string, default: string, s: string) {
    Get(o, name) == Some(Text(s)) || (Get(o, name) == None && s == default)
  }

  predicate ReadsLabel(o: Json, name: string, s: Option<string>) {
    if s.Some? then Get(o, name) == Some(Text(s.value)) else Get(o, name) == None || Get(o, name) == Some(Null)
  }

  /** The discriminator of a position. */
  function TypeName(e: Economics): string {
    match e
    case Equity(_, _, _, _) => "equity"
    case EquityFuture(_, _, _, _, _, _) => "equity_future"
    case EuropeanOption(_, _, _, _, _, _, _) => "european_option"
    case Bond(_, _, _, _, _) => "bond"
    case Swap(_, _, _, _, _) => "swap"
    case FxForward(_, _, _, _) => "fx_forward"
    case FxOption(_, _, _, _, _) => "fx_option"
    case IrFuture(_, _, _, _) => "ir_future"
    case CapFloor(_, _, _, _, _, _, _) => "cap_floor"
    case Swaption(_, _, _, _, _, _, _, _) => "swaption"
  }

  predicate IsScalar(j: Json) {
    !j.List? && !j.Object?
  }

  /** No position has a field that is a list or an object. */
  predicate IsFlat(j: Json) {
    j.Object? && forall i :: 0 <= i < |j.fields| ==> IsScalar(j.fields[i].value)
  }

  predicate AllFlat(items: seq<Json>) {
    forall i :: 0 <= i < |items| ==> IsFlat(items[i])
  }

  predicate ReadsNumber(o: Json, name: string, default: Option<real>, x: real) {
    Get(o, name) == Some(Number(x)) || (Get(o, name) == None && default == Some(x))
  }

  predicate ReadsFlag(o: Json, name: string, default: bool, b: bool) {
    Get(o, name) == Some(Flag(b)) || (Get(o, name) == None && b == default)
  }

  predicate ReadsChoice(o: Json, name: string, yes: string, no: string, b: bool) {
    Get(o, name) == Some(Text(if b then yes else no))
  }

  /** The fields of each family, with the defaults of its model. */
  predicate ReadsEconomics(j: Json, e: Economics) {
    match e
    case Equity(symbol, quantity, currency, sector) =>
      && Get(j, "symbol") == Some(Text(symbol)) && ReadsNumber(j, "quantity", None, quantity)
      && ReadsText(j, "currency", "USD", currency) && ReadsText(j, "sector", "Other", sector)
    case EquityFuture(symbol, quantity, multiplier, t, currency, sector) =>
      && Get(j, "symbol") == Some(Text(symbol)) && ReadsNumber(j, "quantity", None, quantity)
      && ReadsNumber(j, "multiplier", Some(50.0), multiplier) && ReadsNumber(j, "maturity_years", Some(0.25), t)
      && ReadsText(j, "currency", "USD", currency) && ReadsText(j, "sector", "Index", sector)
    case EuropeanOption(symbol, quantity, k, t, call, currency, sector) =>
      && Get(j, "symbol") == Some(Text(symbol)) && ReadsNumber(j, "quantity", None, quantity)
      && ReadsNumber(j, "strike", None, k) && ReadsNumber(j, "maturity_years", None, t) && ReadsChoice(j, "option_type", "call", "put", call)
      && ReadsText(j, "currency", "USD", currency) && ReadsText(j, "sector", "Other", sector)
    case Bond(issuer, face, quantity, t, currency) =>
      && Get(j, "issuer") == Some(Text(issuer)) && ReadsNumber(j, "face_value", None, face)
      && ReadsNumber(j, "quantity", Some(1.0), quantity) && ReadsNumber(j, "maturity_years", None, t)
      && ReadsText(j, "currency", "USD", currency)
    case Swap(currency, notional, t, fixedRate, payFixed) =>
      && ReadsText(j, "currency", "USD", currency) && ReadsNumber(j, "notional", None, notional)
      && ReadsNumber(j, "maturity_years", None, t) && ReadsNumber(j, "fixed_rate", None, fixedRate)
      && ReadsFlag(j, "pay_fixed", true, payFixed)
    case FxForward(pair, notional, k, t) =>
      && Get(j, "pair") == Some(Text(pair)) && ReadsNumber(j, "notional_base", None, notional)
      && ReadsNumber(j, "strike", None, k) && ReadsNumber(j, "maturity_years", None, t)
    case FxOption(pair, notional, k, t, call) =>
      && Get(j, "pair") == Some(Text(pair)) && ReadsNumber(j, "notional_base", None, notional)
      && ReadsNumber(j, "strike", None, k) && ReadsNumber(j, "maturity_years", None, t) && ReadsChoice(j, "option_type", "call", "put", call)
    case IrFuture(currency, quantity, pv01, t) =>
      && ReadsText(j, "currency", "USD", currency) && ReadsNumber(j, "quantity", None, quantity)
      && ReadsNumber(j, "pv01", Some(25.0), pv01) && ReadsNumber(j, "maturity_years", None, t)
    case CapFloor(currency, notional, quantity, k, t, cap, frequency) =>
      && ReadsText(j, "currency", "USD", currency) && ReadsNumber(j, "notional", None, notional)
      && ReadsNumber(j, "quantity", Some(1.0), quantity) && ReadsNumber(j, "strike", None, k) && ReadsNumber(j, "maturity_years", None, t)
      && ReadsChoice(j, "option_type", "cap", "floor", cap)
      && ReadsNumber(j, "payment_frequency_per_year", Some(2.0), frequency as real)
    case Swaption(currency, notional, quantity, k, t, tenor, payer, frequency) =>
      && ReadsText(j, "currency", "USD", currency) && ReadsNumber(j, "notional", None, notional)
      && ReadsNumber(j, "quantity", Some(1.0), quantity) && ReadsNumber(j, "strike", None, k)
      && ReadsNumber(j, "option_maturity_years", None, t) && ReadsNumber(j, "swap_tenor_years", None, tenor)
      && ReadsChoice(j, "option_type", "payer", "receiver", payer)
      && ReadsNumber(j, "payment_frequency_per_year", Some(2.0), frequency as real)
  }

  /** The book a position is in when it names none. */
  function DefaultBook(e: Economics): string {
    match e
    case Equity(_, _, _, _) => "Equity"
    case EquityFuture(_, _, _, _, _, _) => "Equity Derivatives"
    case EuropeanOption(_, _, _, _, _, _, _) => "Equity Derivatives"
    case Bond(_, _, _, _, _) => "Rates"
    case FxForward(_, _, _, _) => "FX"
    case FxOption(_, _, _, _, _) => "FX Derivatives"
    case _ => "Rates Derivatives"
  }

  /** The field names of each family; any other is refused. */
  function FieldNames(e: Economics): set<string> {
    {"type", "id", "book", "desk", "strategy"} +
    match e
    case Equity(_, _, _, _) => {"symbol", "quantity", "currency", "sector"}
    case EquityFuture(_, _, _, _, _, _) => {"symbol", "quantity", "multiplier", "maturity_years", "currency", "sector"}
    case EuropeanOption(_, _, _, _, _, _, _) => {"symbol", "quantity", "strike", "maturity_years", "option_type", "currency", "sector"}
    case Bond(_, _, _, _, _) => {"issuer", "face_value", "quantity", "maturity_years", "duration", "currency"}
    case Swap(_, _, _, _, _) => {"currency", "notional", "maturity_years", "fixed_rate", "pay_fixed", "duration"}
    case FxForward(_, _, _, _) => {"pair", "notional_base", "strike", "maturity_years"}
    case FxOption(_, _, _, _, _) => {"pair", "notional_base", "strike", "maturity_years", "option_type"}
    case IrFuture(_, _, _, _) => {"currency", "quantity", "pv01", "maturity_years"}
    case CapFloor(_, _, _, _, _, _, _) =>
      {"currency", "notional", "quantity", "strike", "maturity_years", "option_type", "payment_frequency_per_year"}
    case Swaption(_, _, _, _, _, _, _, _) =>
      {"currency", "notional", "quantity", "strike", "option_maturity_years", "swap_tenor_years", "option_type", "payment_frequency_per_year"}
  }

  predicate OnlyFields(j: Json, names: set<string>) {
    j.Object? && forall i :: 0 <= i < |j.fields| ==> j.fields[i].name in names
  }

  /** A position is an object of scalars: its type, its id and placement, the fields of its family and no others, within their bounds. */
  predicate ReadsPosition(j: Json, p: Position) {
    && IsFlat(j) && OnlyFields(j, FieldNames(p.economics)) && Contractual(p.economics)
    && Get(j, "type") == Some(Text(TypeName(p.economics))) && Get(j, "id") == Some(Text(Id(p)))
    && ReadsText(j, "book", DefaultBook(p.economics), p.header.book)
    && ReadsLabel(j, "desk", p.header.desk) && ReadsLabel(j, "strategy", p.header.strategy)
    && ReadsEconomics(j, p.economics)
    && (p.economics.Bond? || p.economics.Swap? ==> ReadsNumber(j, "duration", None, p.duration) && p.duration > 0.0)
  }

  predicate ReadsBook(items: seq<Json>, book: seq<Position>) {
    |items| == |book| && forall i :: 0 <= i < |book| ==> ReadsPosition(items[i], book[i])
  }

  function OperationName(o: Operation): string {
    match o
    case Add => "add"
    case Remove => "remove"
    case Modify => "modify"
  }

  predicate ReadsChange(j: Json, c: Change) {
    && j.Object? && Get(j, "operation") == Some(Text(OperationName(c.operation)))
    && ReadsLabel(j, "position_id", c.positionId)
    && (if c.position.Some? then Get(j, "position").Some? && ReadsPosition(Get(j, "position").value, c.position.value)
        else Get(j, "position") == None || Get(j, "position") == Some(Null))
  }

  predicate ReadsChanges(items: seq<Json>, changes: seq<Change>) {
    |items| == |changes| && forall i :: 0 <= i < |items| ==> ReadsChange(items[i], changes[i])
  }

  predicate IsText(o: Json, name: string) {
    Get(o, name).Some? && Get(o, name).value.Text?
  }

  predicate ReadsPortfolio(o: Json, book: seq<Position>) {
    IsText(o, "id") && IsText(o, "name") && ListAt(o, "positions").Some? && ReadsBook(ListAt(o, "positions").value, book)
  }

  /** A what-if request: a portfolio with an id, a name and its positions, and a list of changes; other fields are not read. */
  predicate ReadsRequest(o: Json, book: seq<Position>, changes: seq<Change>) {
    && Get(o, "portfolio").Some? && ReadsPortfolio(Get(o, "portfolio").value, book)
    && ListAt(o, "changes").Some? && ReadsChanges(ListAt(o, "changes").value, changes)
  }

  lemma AddsAlike(j: Json, c: Change)
    requires ReadsChange(j, c)
    ensures AddsPosition(j) <==> Grows(c)
  {
    assert |OperationName(Remove)| == 6 && |OperationName(Modify)| == 6 && |"add"| == 3;
  }

  /** What the check counts is what the edits add. */
  lemma {:induction false} SameAdditions(items: seq<Json>, changes: seq<Change>)
    requires ReadsChanges(items, changes)
    ensures Workload.Additions(items) == WhatIf.Additions(changes)
    decreases |items|
  {
    if items != [] {
      var n := |items| - 1;
      AddsAlike(items[n], changes[n]);
      SameAdditions(items[..n], changes[..n]);
    }
  }

  // ----- the book stays within the limit -----

  /** A list of positions beside the portfolio hides the portfolio's from the check when it is shorter. */
  predicate Hidden(beside: Option<seq<Json>>, size: nat) {
    beside.Some? && |beside.value| < size
  }

  /** A request that passed, and hides nothing, never makes a book over the limit on the way. */
  lemma BookStaysWithin(o: Json, book: seq<Position>, changes: seq<Change>, k: nat, limits: Limits)
    requires ReadsRequest(o, book, changes) && UniqueIds(book) && k <= |changes|
    requires Enforced(o, limits).Passed? && !Hidden(ListAt(o, "positions"), |book|)
    requires Edit(book, changes[..k]).Ok?
    ensures |Edit(book, changes[..k]).value| <= limits.maxPositions
  {
    PassesExactly(o, limits);
    assert PathPasses(o, [], 0, Checker(limits));
    assert CheckNode(o, 0, limits).Passed?;
    SameAdditions(ListAt(o, "changes").value, changes);
    EditSize(book, changes[..k]);
    AdditionsGrow(changes, k);
  }

  // ----- and exactly then -----

  lemma ScalarPasses(j: Json, depth: nat, limits: Limits)
    requires IsScalar(j) && depth <= MAX_JSON_DEPTH
    ensures AllPass(j, depth, Checker(limits))
  {
    ChildPaths(j, depth, Checker(limits));
  }

  lemma {:induction false} FlatHasNoList(fields: seq<Field>, name: string)
    requires forall i :: 0 <= i < |fields| ==> IsScalar(fields[i].value)
    ensures GetField(fields, name).Some? ==> IsScalar(GetField(fields, name).value)
  {
    if fields != [] {
      FlatHasNoList(fields[..|fields| - 1], name);
    }
  }

  lemma FlatPasses(j: Json, depth: nat, limits: Limits)
    requires IsFlat(j) && depth < MAX_JSON_DEPTH
    ensures AllPass(j, depth, Checker(limits))
  {
    FlatHasNoList(j.fields, "positions");
    FlatHasNoList(j.fields, "scenarios");
    FlatHasNoList(j.fields, "changes");
    forall i | 0 <= i < |Children(j)|
      ensures AllPass(Children(j)[i], depth + 1, Checker(limits))
    {
      ScalarPasses(Children(j)[i], depth + 1, limits);
    }
    ChildPaths(j, depth, Checker(limits));
  }

  lemma ListPasses(items: seq<Json>, depth: nat, limits: Limits)
    requires depth <= MAX_JSON_DEPTH && forall i :: 0 <= i < |items| ==> AllPass(items[i], depth + 1, Checker(limits))
    ensures AllPass(List(items), depth, Checker(limits))
  {
    ChildPaths(List(items), depth, Checker(limits));
  }

  lemma FlatListPasses(items: seq<Json>, depth: nat, limits: Limits)
    requires AllFlat(items) && depth + 1 < MAX_JSON_DEPTH
    ensures AllPass(List(items), depth, Checker(limits))
  {
    forall i | 0 <= i < |items|
      ensures AllPass(items[i], depth + 1, Checker(limits))
    {
      FlatPasses(items[i], depth + 1, limits);
    }
    ListPasses(items, depth, limits);
  }

  lemma GetOfTwo(a: Field, b: Field, name: string)
    ensures GetField([a] + [b], name) == if b.name == name then Some(b.value) else if a.name == name then Some(a.value) else None
  {
    GetSnoc([a], b, name);
    GetSnoc([], a, name);
    assert [] + [a] == [a];
  }

  lemma GetOfThree(a: Field, b: Field, c: Field, name: string)
    ensures GetField([a] + [b] + [c], name)
      == if c.name == name then Some(c.value) else if b.name == name then Some(b.value) else if a.name == name then Some(a.value) else None
  {
    GetSnoc([a] + [b], c, name);
    GetOfTwo(a, b, name);
  }

  lemma GetOfFour(a: Field, b: Field, c: Field, d: Field, name: string)
    ensures GetField([a] + [b] + [c] + [d], name)
      == if d.name == name then Some(d.value) else if c.name == name then Some(c.value) else if b.name == name then Some(b.value)
         else if a.name == name then Some(a.value) else None
  {
    GetSnoc([a] + [b] + [c], d, name);
    GetOfThree(a, b, c, name);
  }

  function PortfolioOf(positions: seq<Json>): Json {
    Object([Field("id", Text("book"))] + [Field("name", Text("Book"))] + [Field("positions", List(positions))])
  }

  lemma PortfolioReads(positions: seq<Json>)
    ensures var o := PortfolioOf(positions);
      && Get(o, "id") == Some(Text("book")) && Get(o, "name") == Some(Text("Book")) && ListAt(o, "positions") == Some(positions)
      && ListAt(o, "scenarios") == None && ListAt(o, "changes") == None
  {
    forall name
      ensures Get(PortfolioOf(positions), name) == if name == "positions" then Some(List(positions)) else if name == "name" then Some(Text("Book"))
        else if name == "id" then Some(Text("book")) else None
    {
      GetOfThree(Field("id", Text("book")), Field("name", Text("Book")), Field("positions", List(positions)), name);
    }
  }

  lemma PortfolioPasses(positions: seq<Json>, depth: nat, limits: Limits)
    requires AllFlat(positions) && depth + 2 < MAX_JSON_DEPTH && |positions| <= limits.maxPositions
    ensures AllPass(PortfolioOf(positions), depth, Checker(limits))
  {
    var o := PortfolioOf(positions);
    PortfolioReads(positions);
    FlatListPasses(positions, depth + 1, limits);
    ScalarPasses(Text("book"), depth + 1, limits);
    ScalarPasses(Text("Book"), depth + 1, limits);
    assert Children(o) == [Text("book"), Text("Book"), List(positions)];
    ChildPaths(o, depth, Checker(limits));
  }

  /** A what-if body with a list of positions beside its portfolio. */
  function Body(beside: seq<Json>, positions: seq<Json>, changes: seq<Json>): Json {
    Object([Field("positions", List(beside))] + [Field("portfolio", PortfolioOf(positions))] + [Field("changes", List(changes))])
  }

  lemma BodyFields(beside: seq<Json>, positions: seq<Json>, changes: seq<Json>)
    ensures var o := Body(beside, positions, changes);
      && ListAt(o, "positions") == Some(beside) && Get(o, "portfolio") == Some(PortfolioOf(positions))
      && ListAt(o, "changes") == Some(changes) && ListAt(o, "scenarios") == None
  {
    var p, q, c := Field("positions", List(beside)), Field("portfolio", PortfolioOf(positions)), Field("changes", List(changes));
    forall name
      ensures Get(Body(beside, positions, changes), name) ==
        if name == "changes" then Some(c.value) else if name == "portfolio" then Some(q.value)
        else if name == "positions" then Some(p.value) else None
    {
      GetOfThree(p, q, c, name);
    }
  }

  lemma BodyReads(beside: seq<Json>, positions: seq<Json>, items: seq<Json>, book: seq<Position>, changes: seq<Change>)
    requires ReadsBook(positions, book) && ReadsChanges(items, changes)
    ensures ReadsRequest(Body(beside, positions, items), book, changes)
  {
    BodyFields(beside, positions, items);
    PortfolioReads(positions);
  }

  // ----- one more cash equity -----

  /** How it is written, its defaults left out. */
  function EquityJson(id: string): Json {
    Object([Field("type", Text("equity"))] + [Field("id", Text(id))] + [Field("symbol", Text("ACME"))] + [Field("quantity", Number(1.0))])
  }

  function EquityOf(id: string): Position {
    Position(Header(id, "Equity", None, None), Equity("ACME", 1.0, "USD", "Other"), 0.0)
  }

  lemma EquityFields(id: string, name: string)
    ensures Get(EquityJson(id), name) == if name == "quantity" then Some(Number(1.0)) else if name == "symbol" then Some(Text("ACME"))
      else if name == "id" then Some(Text(id)) else if name == "type" then Some(Text("equity")) else None
  {
    GetOfFour(Field("type", Text("equity")), Field("id", Text(id)), Field("symbol", Text("ACME")), Field("quantity", Number(1.0)), name);
  }

  lemma EquityIsFlat(id: string)
    ensures IsFlat(EquityJson(id)) && OnlyFields(EquityJson(id), FieldNames(EquityOf(id).economics))
  {
    assert EquityJson(id).fields ==
      [Field("type", Text("equity")), Field("id", Text(id)), Field("symbol", Text("ACME")), Field("quantity", Number(1.0))];
  }

  lemma EquityReads(id: string)
    ensures ReadsPosition(EquityJson(id), EquityOf(id))
  {
    EquityIsFlat(id);
    EquityFields(id, "type");
    EquityFields(id, "id");
    EquityFields(id, "symbol");
    EquityFields(id, "quantity");
    EquityFields(id, "currency");
    EquityFields(id, "sector");
    EquityFields(id, "book");
    EquityFields(id, "desk");
    EquityFields(id, "strategy");
  }

  /** The change that adds it. */
  function AdditionJson(id: string): Json {
    Object([Field("operation", Text("add"))] + [Field("position", EquityJson(id))])
  }

  lemma AdditionFields(id: string, name: string)
    ensures Get(AdditionJson(id), name) == if name == "position" then Some(EquityJson(id)) else if name == "operation" then Some(Text("add")) else None
  {
    GetOfTwo(Field("operation", Text("add")), Field("position", EquityJson(id)), name);
  }

  lemma AdditionReads(id: string)
    ensures ReadsChange(AdditionJson(id), Change(Add, None, Some(EquityOf(id))))
    ensures Workload.Additions([AdditionJson(id)]) == 1
  {
    AdditionFields(id, "operation");
    AdditionFields(id, "position");
    AdditionFields(id, "position_id");
    EquityReads(id);
    assert AddsPosition(AdditionJson(id));
    assert [AdditionJson(id)][..0] == [];
    assert Workload.Additions([]) == 0;
  }

  lemma AdditionFits(id: string, depth: nat, limits: Limits)
    requires depth <= MAX_JSON_DEPTH
    ensures Checker(limits)(AdditionJson(id), depth).Passed?
  {
    AdditionFields(id, "positions");
    AdditionFields(id, "scenarios");
    AdditionFields(id, "changes");
    AdditionFields(id, "portfolio");
  }

  lemma AdditionPasses(id: string, depth: nat, limits: Limits)
    requires depth + 1 < MAX_JSON_DEPTH
    ensures AllPass(AdditionJson(id), depth, Checker(limits))
  {
    AdditionFits(id, depth, limits);
    EquityIsFlat(id);
    ScalarPasses(Text("add"), depth + 1, limits);
    FlatPasses(EquityJson(id), depth + 1, limits);
    assert Children(AdditionJson(id)) == [Text("add"), EquityJson(id)];
    ChildPaths(AdditionJson(id), depth, Checker(limits));
  }

  lemma BodyPasses(beside: seq<Json>, positions: seq<Json>, id: string, limits: Limits)
    requires AllFlat(beside) && AllFlat(positions) && |beside| < |positions| <= limits.maxPositions
    ensures Enforced(Body(beside, positions, [AdditionJson(id)]), limits).Passed?
  {
    var changes := [AdditionJson(id)];
    var o := Body(beside, positions, changes);
    BodyFields(beside, positions, changes);
    AdditionReads(id);
    FlatListPasses(beside, 1, limits);
    PortfolioPasses(positions, 1, limits);
    AdditionPasses(id, 2, limits);
    ListPasses(changes, 1, limits);
    assert Children(o) == [List(beside), PortfolioOf(positions), List(changes)];
    ChildPaths(o, 0, Checker(limits));
    PassesExactly(o, limits);
  }

  function IdsLength(book: seq<Position>): nat {
    if book == [] then 0 else |Id(book[0])| + IdsLength(book[1..])
  }

  lemma {:induction false} IdsAreShorter(book: seq<Position>, i: nat)
    requires i < |book|
    ensures |Id(book[i])| <= IdsLength(book)
  {
    if i > 0 {
      IdsAreShorter(book[1..], i - 1);
    }
  }

  /** An id no position of the book has. */
  lemma FreshId(book: seq<Position>) returns (id: string)
    ensures !Held(book, id)
  {
    id := seq(IdsLength(book) + 1, _ => 'p');
    forall i | 0 <= i < |book|
      ensures Id(book[i]) != id
    {
      IdsAreShorter(book, i);
    }
  }

  /** What a configuration can set: both limits are positive. */
  predicate Configured(limits: Limits) {
    limits.maxPositions >= 1 && limits.maxScenarios >= 1
  }

  /** Whatever the changes and the configured limits, a body of this shape that passes keeps every book on the way within them. */
  ghost predicate AlwaysWithin(beside: seq<Json>, positions: seq<Json>, book: seq<Position>) {
    forall items, changes, limits: Limits, k :: 0 <= k <= |changes| && ReadsChanges(items, changes) && Configured(limits)
      && Enforced(Body(beside, positions, items), limits).Passed? && Edit(book, changes[..k]).Ok?
      ==> |Edit(book, changes[..k]).value| <= limits.maxPositions
  }

  lemma BookIsFlat(positions: seq<Json>, book: seq<Position>)
    requires ReadsBook(positions, book)
    ensures AllFlat(positions)
  {
    forall i | 0 <= i < |positions|
      ensures IsFlat(positions[i])
    {
      assert ReadsPosition(positions[i], book[i]);
    }
  }

  lemma OverTheLimit(beside: seq<Json>, positions: seq<Json>, book: seq<Position>)
    requires AllFlat(beside) && ReadsBook(positions, book) && |beside| < |positions|
    ensures !AlwaysWithin(beside, positions, book)
  {
    var id := FreshId(book);
    var limits := Limits(|positions|, 1);
    var items, changes := [AdditionJson(id)], [Change(Add, None, Some(EquityOf(id)))];
    BookIsFlat(positions, book);
    BodyPasses(beside, positions, id, limits);
    AdditionReads(id);
    assert changes[..1] == changes && changes[..0] == [];
    assert Edit(book, changes) == Step(book, changes[0]);
    assert ReadsChanges(items, changes);
    assert |Edit(book, changes[..1]).value| == |book| + 1;
  }

  /**
   * For a portfolio of positions as they are sent: a list of positions beside it leaves the limit in force, for all changes
   * and limits, exactly when it has at least as many as the portfolio. Where it has fewer, one more equity is over.
   */
  lemma WithinExactly(beside: seq<Json>, positions: seq<Json>, book: seq<Position>)
    requires AllFlat(beside) && ReadsBook(positions, book) && UniqueIds(book)
    ensures AlwaysWithin(beside, positions, book) <==> !Hidden(Some(beside), |book|)
  {
    if Hidden(Some(beside), |book|) {
      OverTheLimit(beside, positions, book);
    } else {
      forall items, changes, limits: Limits, k | 0 <= k <= |changes| && ReadsChanges(items, changes) && Configured(limits)
        && Enforced(Body(beside, positions, items), limits).Passed? && Edit(book, changes[..k]).Ok?
        ensures |Edit(book, changes[..k]).value| <= limits.maxPositions
      {
        BodyReads(beside, positions, items, book, changes);
        BodyFields(beside, positions, items);
        BookStaysWithin(Body(beside, positions, items), book, changes, k, limits);
      }
    }
  }
}
