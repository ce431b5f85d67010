/**
 * The simulated REST layer over a list of financial entries: create-request
 * validation, list filtering, lookup and deletion by id, and demo seeding. The
 * list that the browser keeps under one persisted key is the `entries` field of
 * an `EntryStore`. Create, delete and seed read it, change it as a whole and
 * write it back; list and get only read it. Fresh ids and the clock are parameters.
 */
module Api {
  import opened Optional
  import opened JsRuntime
  import opened Types

  // ---------------------------------------------------------------------------
  // Amounts
  // ---------------------------------------------------------------------------

  /** The `amount` of a create request: a number, a text, or a value of any other type. */
  datatype AmountInput = NumberIn(n: Num) | TextIn(s: string) | OtherIn

  /** isFiniteNumber: false exactly for NaN and the infinities, the model's `NonFinite`. */
  predicate IsFiniteNumber(n: Num)
    ensures IsFiniteNumber(n) <==> n != NonFinite
  {
    n.Finite?
  }

  /**
   * Brazilian-format normalisation of an amount text: trim, delete every '.'
   * (thousands separator), then turn the first ',' (decimal separator) into '.'.
   * With `u` the trimmed text without its dots, the result is `u` when `u` has no
   * ',', and otherwise `u` with its first ',' (and only that one) made a '.'.
   */
  function Normalize(s: string): (r: string)
    ensures var u := RemoveAll(Trim(s), '.');
      && (',' !in u ==> r == u)
      && (',' in u ==> exists i :: 0 <= i < |u| && u[i] == ',' && ',' !in u[..i] && r == u[..i] + "." + u[i + 1..])
  {
    ReplaceFirst(RemoveAll(Trim(s), '.'), ',', '.')
  }

  /** toAmount: the finite number a request's amount stands for, if any. */
  function ToAmount(input: AmountInput): (r: Option<Num>)
    ensures r.Some? ==> IsFiniteNumber(r.value)
    ensures input.NumberIn? ==> r == (if IsFiniteNumber(input.n) then Some(input.n) else None)
    ensures input.OtherIn? ==> r.None?
  {
    match input
    case NumberIn(n) => if IsFiniteNumber(n) then Some(n) else None
    case TextIn(s) =>
      var n := NumberOf(Normalize(s));
      if IsFiniteNumber(n) then Some(n) else None
    case OtherIn => None
  }

  /** A text amount is what Number(...) makes of its normalised form, when finite. */
  lemma ToAmountText(s: string, n: Num)
    requires NumberOf(Normalize(s)) == n
    ensures ToAmount(TextIn(s)) == if n.Finite? then Some(n) else None
  {
  }

  /** Digits, possibly with '.' as thousands separators, as a text amount's whole part. */
  predicate DottedDigits(w: string) {
    forall k :: 0 <= k < |w| ==> IsDigit(w[k]) || w[k] == '.'
  }

  lemma RemoveDotsLeavesDigits(w: string)
    requires DottedDigits(w)
    ensures AllDigits(RemoveAll(w, '.'))
  {
    var d := RemoveAll(w, '.');
    forall k | 0 <= k < |d|
      ensures IsDigit(d[k])
    {
      assert d[k] in w && d[k] != '.';
    }
  }

  /** A text of digits and dots, without ',', is read as the whole number its digits
      write: "12.5" as 125, "99" as 99, and a text of dots alone as 0. */
  lemma {:induction false} ToAmountWholeNumber(w: string)
    requires DottedDigits(w)
    ensures ToAmount(TextIn(w)) == Some(Finite(DigitsValue(RemoveAll(w, '.')) as real))
  {
    var d := RemoveAll(w, '.');
    RemoveDotsLeavesDigits(w);
    calc {
      Normalize(w);
      ReplaceFirst(RemoveAll(Trim(w), '.'), ',', '.');
      { TrimDottedDigits(w); }
      ReplaceFirst(d, ',', '.');
      { assert forall k :: 0 <= k < |d| ==> d[k] != ','; }
      d;
    }
    NumberOfDigits(d);
    ToAmountText(w, Finite(DigitsValue(d) as real));
  }

  lemma TrimDottedDigits(w: string)
    requires DottedDigits(w)
    ensures Trim(w) == w
  {
    if w != [] {
      assert IsDigit(w[0]) || w[0] == '.';
      assert IsDigit(w[|w| - 1]) || w[|w| - 1] == '.';
      TrimUnchanged(w);
    }
  }

  /** `w,f` with `w` digits and dots and `f` digits is read as w (dots deleted)
      plus f as a decimal fraction: "1.234,5" as 1234.5, ",5" as 0.5. */
  lemma {:induction false} ToAmountDecimalComma(w: string, f: string)
    requires DottedDigits(w) && AllDigits(f)
    requires RemoveAll(w, '.') != [] || f != []
    ensures ToAmount(TextIn(w + "," + f)) == Some(Finite(DecimalValue(RemoveAll(w, '.'), f)))
  {
    var d := RemoveAll(w, '.');
    RemoveDotsLeavesDigits(w);
    NormalizeDecimalComma(w, f);
    NumberOfPoint(d, f);
    ToAmountText(w + "," + f, Finite(DecimalValue(d, f)));
  }

  /** Normalising `w,f` deletes the dots of `w` and turns the ',' into '.'. */
  lemma NormalizeDecimalComma(w: string, f: string)
    requires DottedDigits(w) && AllDigits(f)
    ensures Normalize(w + "," + f) == RemoveAll(w, '.') + "." + f
  {
    var s, d := w + "," + f, RemoveAll(w, '.');
    RemoveDotsLeavesDigits(w);
    calc {
      Normalize(s);
      ReplaceFirst(RemoveAll(Trim(s), '.'), ',', '.');
      { TrimAroundComma(w, f); }
      ReplaceFirst(RemoveAll(s, '.'), ',', '.');
      { RemoveDotsAroundComma(w, f); }
      ReplaceFirst(d + "," + f, ',', '.');
      { ReplaceCommaAfterDigits(d, f); }
      d + "." + f;
    }
  }

  lemma TrimAroundComma(w: string, f: string)
    requires DottedDigits(w) && AllDigits(f)
    ensures Trim(w + "," + f) == w + "," + f
  {
    var s := w + "," + f;
    assert s[0] == ',' || s[0] == w[0];
    assert s[|s| - 1] == ',' || s[|s| - 1] == f[|f| - 1];
    TrimUnchanged(s);
  }

  lemma RemoveDotsAroundComma(w: string, f: string)
    requires AllDigits(f)
    ensures RemoveAll(w + "," + f, '.') == RemoveAll(w, '.') + "," + f
  {
    assert forall k :: 0 <= k < |f| ==> f[k] != '.';
    RemoveAllConcat(w + ",", f, '.');
    RemoveAllConcat(w, ",", '.');
    RemoveAllAbsent(",", '.');
    RemoveAllAbsent(f, '.');
  }

  lemma ReplaceCommaAfterDigits(d: string, f: string)
    requires AllDigits(d)
    ensures ReplaceFirst(d + "," + f, ',', '.') == d + "." + f
  {
    var u := d + "," + f;
    IndexOfAfterDigits(d, ',', f);
    assert u[|d| := '.'] == d + "." + f;
  }

  /** A text whose trimmed form holds two or more ',' does not parse: "1,2,3". */
  lemma ToAmountManyCommas(s: string)
    requires multiset(Trim(s))[','] >= 2
    ensures ToAmount(TextIn(s)) == None
  {
    SecondCommaSurvives(Trim(s));
    var n := Normalize(s);
    var k :| 0 <= k < |n| && n[k] == ',';
    ToAmountCommaLeft(s, k);
  }

  /** Of two or more ',' only the first becomes a '.'; deleting dots removes none. */
  lemma SecondCommaSurvives(t: string)
    requires multiset(t)[','] >= 2
    ensures ',' in ReplaceFirst(RemoveAll(t, '.'), ',', '.')
  {
    var u := RemoveAll(t, '.');
    var n := ReplaceFirst(u, ',', '.');
    RemoveAllCounts(t, '.');
    assert ',' in u by {
      assert ',' in multiset(u);
    }
    ReplaceFirstCounts(u, ',', '.');
    assert ',' in multiset(n);
  }

  /** A ',' left after normalisation makes the text unparseable. */
  lemma ToAmountCommaLeft(s: string, k: nat)
    requires k < |Normalize(s)| && Normalize(s)[k] == ','
    ensures ToAmount(TextIn(s)) == None
  {
    NumberOfComma(Normalize(s), k);
    ToAmountText(s, NonFinite);
  }

  /** Digits grouped by '.' in threes from the right, as amounts are written in Brazil. */
  function GroupThousands(ds: string): (r: string)
    ensures ds != [] ==> r != [] && r[0] == ds[0] && r[|r| - 1] == ds[|ds| - 1]
    ensures AllDigits(ds) ==> DottedDigits(r)
    decreases |ds|
  {
    if |ds| <= 3 then ds
    else
      var front, back := GroupThousands(ds[..|ds| - 3]), ds[|ds| - 3..];
      assert forall k :: 0 <= k < |front| + 1 + |back| ==>
        (front + "." + back)[k] == if k < |front| then front[k] else if k == |front| then '.' else back[k - |front| - 1];
      front + "." + back
  }

  /** A number of cents written the Brazilian way, e.g. 123456 as "1.234,56". */
  function BrazilianText(c: nat): string {
    GroupThousands(NatDigits(c / 100)) + "," + TwoDigits(c % 100)
  }

  lemma {:induction false} RemoveDotsFromGroups(ds: string)
    requires AllDigits(ds)
    ensures RemoveAll(GroupThousands(ds), '.') == ds
    decreases |ds|
  {
    if |ds| <= 3 {
      RemoveAllAbsent(ds, '.');
    } else {
      var front, back := ds[..|ds| - 3], ds[|ds| - 3..];
      var grouped := GroupThousands(front);
      calc {
        RemoveAll(GroupThousands(ds), '.');
        RemoveAll(grouped + "." + back, '.');
        { RemoveAllConcat(grouped + ".", back, '.'); }
        RemoveAll(grouped + ".", '.') + RemoveAll(back, '.');
        { RemoveAllConcat(grouped, ".", '.'); }
        RemoveAll(grouped, '.') + RemoveAll(".", '.') + RemoveAll(back, '.');
        { RemoveDotsFromGroups(front); RemoveAllAbsent(back, '.'); }
        front + RemoveAll(".", '.') + back;
        { assert RemoveAll(".", '.') == []; }
        front + back;
        { assert front + back == ds; }
        ds;
      }
    }
  }

  /** Normalising a Brazilian-format amount gives the plain decimal text of the same cents. */
  lemma NormalizeBrazilian(c: nat)
    ensures Normalize(BrazilianText(c)) == FixedTwo(c)
  {
    var whole, fraction := NatDigits(c / 100), TwoDigits(c % 100);
    NormalizeDecimalComma(GroupThousands(whole), fraction);
    RemoveDotsFromGroups(whole);
  }

  /** An amount typed the Brazilian way is read as exactly its number of cents over 100. */
  lemma ToAmountBrazilian(c: nat)
    ensures ToAmount(TextIn(BrazilianText(c))) == Some(Finite(c as real / 100.0))
  {
    NormalizeBrazilian(c);
    NumberOfFixedTwo(c);
  }

  /** Math.round(x * 100): the nearest whole number of cents, halves rounded up. */
  function RoundCents(x: real): (r: int)
    ensures r as real - 0.5 <= x * 100.0 < r as real + 0.5
  {
    (x * 100.0 + 0.5).Floor
  }

  // ---------------------------------------------------------------------------
  // Create-request validation
  // ---------------------------------------------------------------------------

  /** The body of a create request, as the caller sent it. */
  datatype CreateEntryInput = CreateEntryInput(
    entryType: string,
    amount: AmountInput,
    description: Option<string>,
    cardBrand: Option<string>)

  /** BRANDS: the brand names a request may carry. */
  function Brands(): (r: seq<string>)
    ensures |r| == 8
    ensures forall k :: 0 <= k < |r| ==> ParseBrand(r[k]).Some? && BrandName(ParseBrand(r[k]).value) == r[k]
  {
    ["Visa", "Mastercard", "Elo", "American Express", "Hipercard", "Discover", "Diners", "Outra"]
  }

  function Failure<T>(message: ErrorMessage): ApiResponse<T> {
    Err(ApiError(message, None))
  }

  /** A JavaScript string in a boolean position: absent and "" are false. */
  predicate Truthy(s: Option<string>) {
    s.Some? && s.value != ""
  }

  /** `(input.description ?? "").trim()` */
  function DescriptionOf(input: CreateEntryInput): (r: string)
    ensures input.description.None? ==> r == ""
    ensures input.description.Some? ==> |r| <= |input.description.value|
    ensures r != "" ==> !IsSpace(r[0]) && !IsSpace(r[|r| - 1])
  {
    Trim(match input.description case Some(d) => d case None => "")
  }

  /** The description check passes exactly when a description is given and holds a
      character that is not white space. */
  lemma DescriptionGivenIff(input: CreateEntryInput)
    ensures DescriptionOf(input) != "" <==>
      input.description.Some? && exists k :: 0 <= k < |input.description.value| && !IsSpace(input.description.value[k])
  {
    if input.description.Some? {
      TrimEmpty(input.description.value);
    }
  }

  /** What the amount check lets through: the parsed amount (as written) or the rounded one. */
  datatype AmountRule = ParsedPositive | RoundedPositive

  predicate AmountAllowed(rule: AmountRule, x: real) {
    match rule
    case ParsedPositive => x > 0.0
    case RoundedPositive => RoundCents(x) > 0
  }

  /** The checks of a create request, in the order they are made. */
  datatype Check = AmountParses | AmountPositive | TypeKnown | DescriptionGiven | BrandKnown

  const Checks: seq<Check> := [AmountParses, AmountPositive, TypeKnown, DescriptionGiven, BrandKnown]

  function Message(c: Check): ErrorMessage {
    match c
    case AmountParses => InvalidAmount
    case AmountPositive => AmountNotPositive
    case TypeKnown => InvalidType
    case DescriptionGiven => MissingDescription
    case BrandKnown => InvalidCardBrand
  }

  predicate Passes(rule: AmountRule, input: CreateEntryInput, c: Check) {
    match c
    case AmountParses => ToAmount(input.amount).Some?
    case AmountPositive =>
      ToAmount(input.amount).Some? && IsFiniteNumber(ToAmount(input.amount).value)
      && AmountAllowed(rule, ToAmount(input.amount).value.value)
    case TypeKnown => ParseType(input.entryType).Some?
    case DescriptionGiven => DescriptionOf(input) != ""
    case BrandKnown => !Truthy(input.cardBrand) || input.cardBrand.value in Brands()
  }

  function FailsTest(rule: AmountRule, input: CreateEntryInput): Check -> bool {
    c => !Passes(rule, input, c)
  }

  /** The first check, in the fixed order, that the request fails. */
  function FirstFailed(rule: AmountRule, input: CreateEntryInput): Option<nat> {
    FindIndex(Checks, FailsTest(rule, input))
  }

  /** BRANDS names exactly the eight card brands, each once. */
  lemma BrandsAreTheCardBrands()
    ensures |Brands()| == 8
    ensures forall i, j :: 0 <= i < j < |Brands()| ==> Brands()[i] != Brands()[j]
    ensures forall s :: s in Brands() <==> ParseBrand(s).Some?
    ensures forall b: CardBrand :: BrandName(b) in Brands()
  {
  }

  lemma BrandListed(s: Option<string>)
    ensures Truthy(s) && s.value in Brands() ==> ParseBrand(s.value).Some?
  {
  }

  /**
   * apiCreateEntry up to the write: five checks in a fixed order where the first
   * failure decides the error message, then the normalised entry. The amount
   * check follows `rule`.
   */
  function ValidateUnder(rule: AmountRule, input: CreateEntryInput, id: string, now: int): (r: ApiResponse<Entry>)
    ensures r.Err? <==> FirstFailed(rule, input).Some?
    ensures r.Err? ==> r == Failure(Message(Checks[FirstFailed(rule, input).value]))
  {
    FirstFailedUnrolled(rule, input);
    if !Passes(rule, input, AmountParses) then Failure(Message(AmountParses))
    else if !Passes(rule, input, AmountPositive) then Failure(Message(AmountPositive))
    else if !Passes(rule, input, TypeKnown) then Failure(Message(TypeKnown))
    else if !Passes(rule, input, DescriptionGiven) then Failure(Message(DescriptionGiven))
    else if !Passes(rule, input, BrandKnown) then Failure(Message(BrandKnown))
    else Ok(NewEntry(input, id, now))
  }

  /** The entry an accepted request becomes: `{id, createdAt, type, amount, description, cardBrand?}`. */
  function NewEntry(input: CreateEntryInput, id: string, now: int): (r: Entry)
    requires ToAmount(input.amount).Some? && ParseType(input.entryType).Some?
    ensures r.id == id && r.createdAt == now && TypeName(r.entryType) == input.entryType
    ensures var x := ToAmount(input.amount).value.value;
      r.amountCents as real - 0.5 <= x * 100.0 < r.amountCents as real + 0.5
    ensures r.description == DescriptionOf(input)
    ensures r.cardBrand.Some? ==> Truthy(input.cardBrand) && BrandName(r.cardBrand.value) == input.cardBrand.value
  {
    Entry(
      id,
      now,
      ParseType(input.entryType).value,
      RoundCents(ToAmount(input.amount).value.value),
      DescriptionOf(input),
      if Truthy(input.cardBrand) then ParseBrand(input.cardBrand.value) else None)
  }

  /**
   * An accepted request becomes an entry with the given id and time, the type the
   * request names, its amount rounded to cents, its description trimmed (and not
   * empty) and the brand it names, if any.
   */
  lemma AcceptedEntry(rule: AmountRule, input: CreateEntryInput, id: string, now: int)
    requires ValidateUnder(rule, input, id, now).Ok?
    ensures var e := ValidateUnder(rule, input, id, now).data;
      && e.id == id && e.createdAt == now
      && TypeName(e.entryType) == input.entryType
      && ToAmount(input.amount).Some? && IsFiniteNumber(ToAmount(input.amount).value)
      && AmountAllowed(rule, ToAmount(input.amount).value.value)
      && e.amountCents == RoundCents(ToAmount(input.amount).value.value)
      && e.description == DescriptionOf(input) && e.description != ""
      && Trim(e.description) == e.description
      && (e.cardBrand.Some? <==> Truthy(input.cardBrand))
      && (e.cardBrand.Some? ==> BrandName(e.cardBrand.value) == input.cardBrand.value)
  {
    FirstFailedUnrolled(rule, input);
    assert Passes(rule, input, AmountParses) && Passes(rule, input, AmountPositive);
    assert Passes(rule, input, TypeKnown) && Passes(rule, input, DescriptionGiven) && Passes(rule, input, BrandKnown);
    assert ValidateUnder(rule, input, id, now).data == NewEntry(input, id, now);
    RequestFields(input);
  }

  /** The parts of a request that pass the type and brand checks, as the new entry holds them. */
  lemma RequestFields(input: CreateEntryInput)
    requires ParseType(input.entryType).Some?
    requires !Truthy(input.cardBrand) || input.cardBrand.value in Brands()
    ensures TypeName(ParseType(input.entryType).value) == input.entryType
    ensures Trim(DescriptionOf(input)) == DescriptionOf(input)
    ensures Truthy(input.cardBrand) ==>
      ParseBrand(input.cardBrand.value).Some? && BrandName(ParseBrand(input.cardBrand.value).value) == input.cardBrand.value
  {
    BrandListed(input.cardBrand);
    TrimIdempotent(match input.description case Some(d) => d case None => "");
  }

  /** The first failing check, spelled out check by check. */
  lemma FirstFailedUnrolled(rule: AmountRule, input: CreateEntryInput)
    ensures FirstFailed(rule, input) ==
      if !Passes(rule, input, AmountParses) then Some(0)
      else if !Passes(rule, input, AmountPositive) then Some(1)
      else if !Passes(rule, input, TypeKnown) then Some(2)
      else if !Passes(rule, input, DescriptionGiven) then Some(3)
      else if !Passes(rule, input, BrandKnown) then Some(4)
      else None
    ensures Checks[0] == AmountParses && Checks[1] == AmountPositive && Checks[2] == TypeKnown
    ensures Checks[3] == DescriptionGiven && Checks[4] == BrandKnown
  {
    var f := FailsTest(rule, input);
    assert Checks[1..][1..][1..][1..][1..] == [];
  }

  /** A stored entry as the api as written creates it: no negative cents (zero is
      possible), and a non-empty description without white space at its ends. */
  predicate Storable(e: Entry) {
    e.amountCents >= 0 && e.description != "" &&
    !IsSpace(e.description[0]) && !IsSpace(e.description[|e.description| - 1])
  }

  /** A stored entry as every entry the api creates should be: a storable one with a positive amount. */
  predicate WellFormed(e: Entry) {
    Storable(e) && e.amountCents > 0
  }

  /** Every accepted entry is storable, and well formed under the corrected amount rule. */
  lemma AcceptedIsStorable(rule: AmountRule, input: CreateEntryInput, id: string, now: int)
    requires ValidateUnder(rule, input, id, now).Ok?
    ensures Storable(ValidateUnder(rule, input, id, now).data)
    ensures rule == RoundedPositive ==> WellFormed(ValidateUnder(rule, input, id, now).data)
  {
    AcceptedEntry(rule, input, id, now);
    StorableFrom(rule, ValidateUnder(rule, input, id, now).data, ToAmount(input.amount).value.value);
  }

  /** An entry holding an allowed amount, rounded, and a trimmed non-empty description is storable. */
  lemma StorableFrom(rule: AmountRule, e: Entry, x: real)
    requires AmountAllowed(rule, x) && e.amountCents == RoundCents(x)
    requires e.description != "" && Trim(e.description) == e.description
    ensures Storable(e)
    ensures rule == RoundedPositive ==> WellFormed(e)
  {
    TrimmedEnds(e.description);
  }

  /** The validation of api.ts as written: the amount check looks at the unrounded amount. */
  function ValidateAsWritten(input: CreateEntryInput, id: string, now: int): (r: ApiResponse<Entry>)
    ensures r.Ok? ==> Storable(r.data)
  {
    var r := ValidateUnder(ParsedPositive, input, id, now);
    if r.Ok? then AcceptedIsStorable(ParsedPositive, input, id, now); r else r
  }

  /** The validation the model uses: the amount check looks at the amount as it will be stored. */
  function Validate(input: CreateEntryInput, id: string, now: int): (r: ApiResponse<Entry>)
    ensures r.Ok? ==> WellFormed(r.data)
  {
    var r := ValidateUnder(RoundedPositive, input, id, now);
    if r.Ok? then AcceptedIsStorable(RoundedPositive, input, id, now); r else r
  }

  /** The corrected validation differs from the written one only by rejecting, as
      not positive, an amount that rounds to zero cents. */
  lemma CorrectionOnlyRejectsZeroCents(input: CreateEntryInput, id: string, now: int)
    ensures Validate(input, id, now) != ValidateAsWritten(input, id, now) ==>
              Validate(input, id, now) == Failure(AmountNotPositive)
              && ToAmount(input.amount).Some?
              && 0.0 < ToAmount(input.amount).value.value * 100.0 < 0.5
  {
    FirstFailedUnrolled(RoundedPositive, input);
    FirstFailedUnrolled(ParsedPositive, input);
  }

  /**
   * Any well-formed expense below half a cent (0.004, say) passes the written checks
   * and is stored with amount 0; the corrected validation rejects it as not positive.
   */
  lemma AsWrittenStoresZeroAmount(x: real, d: string, id: string, now: int)
    requires 0.0 < x && x * 100.0 < 0.5
    requires d != [] && !IsSpace(d[0])
    ensures var input := CreateEntryInput("gasto", NumberIn(Finite(x)), Some(d), None);
      && ValidateAsWritten(input, id, now).Ok?
      && ValidateAsWritten(input, id, now).data.amountCents == 0
      && Validate(input, id, now) == Failure(AmountNotPositive)
  {
    var input := CreateEntryInput("gasto", NumberIn(Finite(x)), Some(d), None);
    assert RoundCents(x) == 0;
    assert DescriptionOf(input) != "";
    assert ParseType(input.entryType) == Some(Gasto);
    assert Passes(ParsedPositive, input, AmountParses) && Passes(ParsedPositive, input, AmountPositive);
    assert Passes(ParsedPositive, input, TypeKnown) && Passes(ParsedPositive, input, DescriptionGiven);
    assert Passes(ParsedPositive, input, BrandKnown);
    assert !Passes(RoundedPositive, input, AmountPositive);
    FirstFailedUnrolled(RoundedPositive, input);
    FirstFailedUnrolled(ParsedPositive, input);
  }

  // ---------------------------------------------------------------------------
  // Listing
  // ---------------------------------------------------------------------------

  datatype TypeFilter = AllTypes | OnlyType(t: EntryType)
  datatype BrandFilter = AllBrands | OnlyBrand(b: CardBrand)

  /**
   * The list query. `q` is the search text; `from` and `to` are timestamps, and
   * `None` stands for a bound that is absent, empty or not a valid date.
   */
  datatype ListParams = ListParams(
    entryType: TypeFilter,
    cardBrand: BrandFilter,
    q: Option<string>,
    from: Option<int>,
    to: Option<int>)

  const NoFilters: ListParams := ListParams(AllTypes, AllBrands, None, None, None)

  /** `q && q.trim()` */
  predicate QueryActive(q: Option<string>) {
    q.Some? && Trim(q.value) != ""
  }

  function Needle(q: string): string {
    ToLower(Trim(q))
  }

  /** The test of each filter; the filter itself runs only when its parameter is set. */
  function TypeTest(f: TypeFilter): Entry -> bool {
    (e: Entry) => f.OnlyType? ==> e.entryType == f.t
  }

  function BrandTest(f: BrandFilter): Entry -> bool {
    (e: Entry) => f.OnlyBrand? ==> e.cardBrand == Some(f.b)
  }

  function QueryTest(q: Option<string>): Entry -> bool {
    (e: Entry) => QueryActive(q) ==> Includes(ToLower(e.description), Needle(q.value))
  }

  function FromTest(from: Option<int>): Entry -> bool {
    (e: Entry) => from.Some? ==> e.createdAt >= from.value
  }

  function UntilTest(to: Option<int>): Entry -> bool {
    (e: Entry) => to.Some? ==> e.createdAt <= to.value
  }

  /** An entry answers a query when it passes every active filter. */
  predicate Matches(e: Entry, p: ListParams) {
    (p.entryType.OnlyType? ==> e.entryType == p.entryType.t) &&
    (p.cardBrand.OnlyBrand? ==> e.cardBrand == Some(p.cardBrand.b)) &&
    (QueryActive(p.q) ==> Includes(ToLower(e.description), Needle(p.q.value))) &&
    (p.from.Some? ==> e.createdAt >= p.from.value) &&
    (p.to.Some? ==> e.createdAt <= p.to.value)
  }

  function MatchTest(p: ListParams): Entry -> bool {
    (e: Entry) => Matches(e, p)
  }

  /** apiListEntries: the stored list narrowed, in turn, by the filter of each parameter
      that is set. The chain is one filter by the conjunction of the active conditions. */
  function ListEntries(entries: seq<Entry>, p: ListParams): (r: seq<Entry>)
    ensures r == Filter(MatchTest(p), entries)
  {
    var a1, a2, a3, a4, a5 := p.entryType.OnlyType?, p.cardBrand.OnlyBrand?, QueryActive(p.q), p.from.Some?, p.to.Some?;
    var byType := FilterIf(a1, TypeTest(p.entryType), entries);
    var byBrand := FilterIf(a2, BrandTest(p.cardBrand), byType);
    var byQuery := FilterIf(a3, QueryTest(p.q), byBrand);
    var byFrom := FilterIf(a4, FromTest(p.from), byQuery);
    var r := FilterIf(a5, UntilTest(p.to), byFrom);
    assert forall e: Entry :: (MatchTest(p)(e) ==
      ((a1 ==> TypeTest(p.entryType)(e)) && (a2 ==> BrandTest(p.cardBrand)(e)) && (a3 ==> QueryTest(p.q)(e)) &&
       (a4 ==> FromTest(p.from)(e)) && (a5 ==> UntilTest(p.to)(e))));
    FilterStages(entries, a1, TypeTest(p.entryType), a2, BrandTest(p.cardBrand), a3, QueryTest(p.q),
                 a4, FromTest(p.from), a5, UntilTest(p.to), MatchTest(p));
    r
  }

  /** The listed entries are exactly the stored ones that answer the query, in store order. */
  lemma ListContents(entries: seq<Entry>, p: ListParams)
    ensures IsSubsequence(ListEntries(entries, p), entries)
    ensures forall e :: e in ListEntries(entries, p) <==> e in entries && Matches(e, p)
  {
    FilterIsSubsequence(MatchTest(p), entries);
  }

  /** Without parameters the whole store is listed. */
  lemma ListWithoutFilters(entries: seq<Entry>)
    ensures ListEntries(entries, NoFilters) == entries
  {
  }

  /** Combining filters lists exactly the entries every single-filter query lists. */
  lemma ListIsIntersection(entries: seq<Entry>, p: ListParams, e: Entry)
    ensures e in ListEntries(entries, p) <==>
      e in ListEntries(entries, NoFilters.(entryType := p.entryType)) &&
      e in ListEntries(entries, NoFilters.(cardBrand := p.cardBrand)) &&
      e in ListEntries(entries, NoFilters.(q := p.q)) &&
      e in ListEntries(entries, NoFilters.(from := p.from)) &&
      e in ListEntries(entries, NoFilters.(to := p.to))
  {
    ListContents(entries, p);
    ListContents(entries, NoFilters.(entryType := p.entryType));
    ListContents(entries, NoFilters.(cardBrand := p.cardBrand));
    ListContents(entries, NoFilters.(q := p.q));
    ListContents(entries, NoFilters.(from := p.from));
    ListContents(entries, NoFilters.(to := p.to));
  }

  // ---------------------------------------------------------------------------
  // The store
  // ---------------------------------------------------------------------------

  /** The payload of a successful delete: `{id}`. */
  datatype Deleted = Deleted(id: string)

  /** The payload of a successful seeding: `{seeded}`. */
  datatype Seeded = Seeded(seeded: nat)

  predicate AllStorable(s: seq<Entry>) {
    forall e :: e in s ==> Storable(e)
  }

  predicate AllWellFormed(s: seq<Entry>) {
    forall e :: e in s ==> WellFormed(e)
  }

  predicate IdsUnique(s: seq<Entry>) {
    forall i, j :: 0 <= i < j < |s| ==> s[i].id != s[j].id
  }

  predicate IdAbsent(s: seq<Entry>, id: string) {
    forall e :: e in s ==> e.id != id
  }

  function IdTest(id: string): Entry -> bool {
    (e: Entry) => e.id == id
  }

  /** The three fixed demo entries, dated a day, six hours and 45 minutes before `now`. */
  function DemoEntries(id1: string, id2: string, id3: string, now: int): (r: seq<Entry>)
    ensures |r| == 3 && AllWellFormed(r)
  {
    var r := [ Entry(id1, now - 1000 * 60 * 60 * 24, Gasto, 7990, "Mercado", Some(Mastercard)),
               Entry(id2, now - 1000 * 60 * 60 * 6, Entrada, 250000, "Salário", None),
               Entry(id3, now - 1000 * 60 * 45, Gasto, 3990, "Assinatura", Some(Visa)) ];
    assert WellFormed(r[0]) && WellFormed(r[1]) && WellFormed(r[2]);
    r
  }

  function CountType(s: seq<Entry>, t: EntryType): nat {
    if s == [] then 0 else (if s[0].entryType == t then 1 else 0) + CountType(s[1..], t)
  }

  /** Two entries that differ at most in id and timestamp. */
  predicate SamePayload(a: Entry, b: Entry) {
    a.entryType == b.entryType && a.amountCents == b.amountCents &&
    a.description == b.description && a.cardBrand == b.cardBrand
  }

  lemma {:induction false} CountTypeConcat(a: seq<Entry>, b: seq<Entry>, t: EntryType)
    ensures CountType(a + b, t) == CountType(a, t) + CountType(b, t)
  {
    if a != [] {
      assert (a + b)[1..] == a[1..] + b;
      CountTypeConcat(a[1..], b, t);
    } else {
      assert a + b == b;
    }
  }

  /** The demo entries are two expenses and one income. */
  lemma DemoTypes(id1: string, id2: string, id3: string, now: int)
    ensures CountType(DemoEntries(id1, id2, id3, now), Gasto) == 2
    ensures CountType(DemoEntries(id1, id2, id3, now), Entrada) == 1
  {
    var d := DemoEntries(id1, id2, id3, now);
    assert d[0].entryType == Gasto && d[1].entryType == Entrada && d[2].entryType == Gasto;
    var d1, d2 := d[1..], d[1..][1..];
    assert d2[1..] == [] && d2[0] == d[2] && d1[0] == d[1];
    assert CountType(d2, Gasto) == 1 && CountType(d2, Entrada) == 0;
    assert CountType(d1, Gasto) == 1 && CountType(d1, Entrada) == 1;
  }

  /** Seeding twice stacks two copies of the demo entries over the old list. */
  lemma SeedingTwiceDuplicates(s: seq<Entry>, a1: string, a2: string, a3: string, n1: int,
                               b1: string, b2: string, b3: string, n2: int)
    ensures var twice := DemoEntries(b1, b2, b3, n2) + (DemoEntries(a1, a2, a3, n1) + s);
      |twice| == |s| + 6 && twice[6..] == s &&
      (forall k :: 0 <= k < 3 ==> SamePayload(twice[k], twice[k + 3])) &&
      CountType(twice[..6], Gasto) == 4 && CountType(twice[..6], Entrada) == 2
  {
    var first, second := DemoEntries(a1, a2, a3, n1), DemoEntries(b1, b2, b3, n2);
    var twice := second + (first + s);
    assert twice[..6] == second + first;
    DemoTypes(a1, a2, a3, n1);
    DemoTypes(b1, b2, b3, n2);
    CountTypeConcat(second, first, Gasto);
    CountTypeConcat(second, first, Entrada);
  }

  /** Putting a well-formed (storable) entry with a fresh id at the head keeps the invariants. */
  lemma PrependPreserves(e: Entry, s: seq<Entry>)
    ensures AllStorable(s) && Storable(e) ==> AllStorable([e] + s)
    ensures AllWellFormed(s) && WellFormed(e) ==> AllWellFormed([e] + s)
    ensures IdsUnique(s) && IdAbsent(s, e.id) ==> IdsUnique([e] + s)
  {
    if IdsUnique(s) && IdAbsent(s, e.id) {
      forall i, j | 0 <= i < j < |[e] + s| ensures ([e] + s)[i].id != ([e] + s)[j].id {
        if i == 0 {
          assert ([e] + s)[j] == s[j - 1];
        } else {
          assert ([e] + s)[i] == s[i - 1] && ([e] + s)[j] == s[j - 1];
        }
      }
    }
  }

  /** Removing the entry at `k` keeps the invariants, and with unique ids its id is gone. */
  lemma RemoveAtPreserves(s: seq<Entry>, k: nat)
    requires k < |s|
    ensures AllStorable(s) ==> AllStorable(s[..k] + s[k + 1..])
    ensures AllWellFormed(s) ==> AllWellFormed(s[..k] + s[k + 1..])
    ensures IdsUnique(s) ==> IdsUnique(s[..k] + s[k + 1..]) && IdAbsent(s[..k] + s[k + 1..], s[k].id)
  {
    var t := s[..k] + s[k + 1..];
    assert forall i :: 0 <= i < |t| ==> t[i] == s[if i < k then i else i + 1];
    assert forall e :: e in t ==> e in s;
    if IdsUnique(s) {
      forall e | e in t ensures e.id != s[k].id {
        var i :| 0 <= i < |t| && t[i] == e;
      }
    }
  }

  /**
   * The persisted list of entries. Each method models one api operation. Create,
   * delete and seed load the list, change it as a whole and save it back; list and
   * get only load it. Loading and saving are taken to succeed, so no operation
   * fails half-way.
   */
  class EntryStore {
    var entries: seq<Entry>

    /** The store over whatever list is persisted. */
    constructor (stored: seq<Entry>)
      ensures entries == stored
    {
      entries := stored;
    }

    /**
     * apiCreateEntry: validate, then put the new entry at the head of the list. With
     * `ParsedPositive` this is api.ts as written, which can store an amount of 0; with
     * `RoundedPositive` it is the corrected check, which keeps every entry well formed.
     */
    method Create(rule: AmountRule, input: CreateEntryInput, id: string, now: int) returns (r: ApiResponse<Entry>)
      modifies this
      ensures rule == ParsedPositive ==> r == ValidateAsWritten(input, id, now)
      ensures rule == RoundedPositive ==> r == Validate(input, id, now)
      ensures r.Err? ==> entries == old(entries)
      ensures r.Ok? ==> entries == [r.data] + old(entries)
      ensures AllStorable(old(entries)) ==> AllStorable(entries)
      ensures rule == RoundedPositive && AllWellFormed(old(entries)) ==> AllWellFormed(entries)
      ensures IdsUnique(old(entries)) && IdAbsent(old(entries), id) ==> IdsUnique(entries)
    {
      r := ValidateUnder(rule, input, id, now);
      if r.Err? {
        return;
      }
      AcceptedIsStorable(rule, input, id, now);
      var stored := entries;
      PrependPreserves(r.data, stored);
      stored := [r.data] + stored;
      entries := stored;
    }

    /** apiListEntries: always succeeds, and changes nothing. */
    method List(p: ListParams) returns (r: ApiResponse<seq<Entry>>)
      ensures r.Ok?
      ensures r.data == Filter(MatchTest(p), entries)
      ensures IsSubsequence(r.data, entries)
      ensures forall e :: e in r.data <==> e in entries && Matches(e, p)
    {
      var stored := entries;
      r := Ok(ListEntries(stored, p));
      ListContents(stored, p);
    }

    /** apiGetEntry: the first entry with the id, or "not found"; changes nothing. */
    method Get(id: string) returns (r: ApiResponse<Entry>)
      ensures r.Err? <==> forall k :: 0 <= k < |entries| ==> entries[k].id != id
      ensures r.Err? ==> r == Failure(NotFound)
      ensures r.Ok? ==>
        r.data.id == id &&
        exists k :: 0 <= k < |entries| && entries[k] == r.data && forall j :: 0 <= j < k ==> entries[j].id != id
    {
      var stored := entries;
      var found := FindIndex(stored, IdTest(id));
      if found.None? {
        r := Failure(NotFound);
        return;
      }
      r := Ok(stored[found.value]);
    }

    /** apiDeleteEntry: remove the first entry with the id, or report "not found". */
    method Delete(id: string) returns (r: ApiResponse<Deleted>)
      modifies this
      ensures r.Err? <==> forall k :: 0 <= k < |old(entries)| ==> old(entries)[k].id != id
      ensures r.Err? ==> r == Failure(NotFound) && entries == old(entries)
      ensures r.Ok? ==> r.data == Deleted(id) && |entries| == |old(entries)| - 1
      ensures r.Ok? ==> exists k :: 0 <= k < |old(entries)| && old(entries)[k].id == id
                         && (forall j :: 0 <= j < k ==> old(entries)[j].id != id)
                         && entries == old(entries)[..k] + old(entries)[k + 1..]
      ensures AllStorable(old(entries)) ==> AllStorable(entries)
      ensures AllWellFormed(old(entries)) ==> AllWellFormed(entries)
      ensures IdsUnique(old(entries)) ==> IdsUnique(entries) && IdAbsent(entries, id)
    {
      var stored := entries;
      var found := FindIndex(stored, IdTest(id));
      if found.None? {
        r := Failure(NotFound);
        return;
      }
      var k := found.value;
      RemoveAtPreserves(stored, k);
      stored := stored[..k] + stored[k + 1..];
      entries := stored;
      r := Ok(Deleted(id));
    }

    /** apiSeedDemo: put the three demo entries ahead of the list. Not idempotent. */
    method SeedDemo(id1: string, id2: string, id3: string, now: int) returns (r: ApiResponse<Seeded>)
      modifies this
      ensures entries == DemoEntries(id1, id2, id3, now) + old(entries)
      ensures |entries| == |old(entries)| + 3
      ensures r == Ok(Seeded(3))
      ensures AllStorable(old(entries)) ==> AllStorable(entries)
      ensures AllWellFormed(old(entries)) ==> AllWellFormed(entries)
      ensures IdsUnique(old(entries)) && IdsUnique(DemoEntries(id1, id2, id3, now))
              && IdAbsent(old(entries), id1) && IdAbsent(old(entries), id2) && IdAbsent(old(entries), id3)
              ==> IdsUnique(entries)
    {
      var demo := DemoEntries(id1, id2, id3, now);
      entries := demo + entries;
      r := Ok(Seeded(|demo|));
    }
  }
}
