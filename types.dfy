/**
 * The data and response types of the finance api: card brands, entry types,
 * the stored entry record and the response envelope every operation returns.
 */
module Types {
  import opened Optional

  /** The closed set of card brands an entry may name. */
  datatype CardBrand = Visa | Mastercard | Elo | AmericanExpress | Hipercard | Discover | Diners | Outra

  /** The text by which a brand is written in requests and stored entries. */
  function BrandName(b: CardBrand): string {
    match b
    case Visa => "Visa"
    case Mastercard => "Mastercard"
    case Elo => "Elo"
    case AmericanExpress => "American Express"
    case Hipercard => "Hipercard"
    case Discover => "Discover"
    case Diners => "Diners"
    case Outra => "Outra"
  }

  /** The brand a text names, if it names one. */
  function ParseBrand(s: string): (r: Option<CardBrand>)
    ensures r.Some? ==> BrandName(r.value) == s
    ensures forall b: CardBrand :: BrandName(b) == s ==> r == Some(b)
  {
    if s == "Visa" then Some(Visa)
    else if s == "Mastercard" then Some(Mastercard)
    else if s == "Elo" then Some(Elo)
    else if s == "American Express" then Some(AmericanExpress)
    else if s == "Hipercard" then Some(Hipercard)
    else if s == "Discover" then Some(Discover)
    else if s == "Diners" then Some(Diners)
    else if s == "Outra" then Some(Outra)
    else None
  }

  /** Whether an entry is an expense ("gasto") or an income ("entrada"). */
  datatype EntryType = Gasto | Entrada

  function TypeName(t: EntryType): string {
    match t
    case Gasto => "gasto"
    case Entrada => "entrada"
  }

  /** The entry type a text names: exactly "gasto" or "entrada", nothing else. */
  function ParseType(s: string): (r: Option<EntryType>)
    ensures r.Some? <==> s == "gasto" || s == "entrada"
    ensures r.Some? ==> TypeName(r.value) == s
  {
    if s == "gasto" then Some(Gasto)
    else if s == "entrada" then Some(Entrada)
    else None
  }

  /**
   * One stored financial record. The amount is kept in integer cents: the stored
   * number is amountCents / 100. `createdAt` is a timestamp in milliseconds.
   * `cardBrand` is the only optional field.
   */
  datatype Entry = Entry(
    id: string,
    createdAt: int,
    entryType: EntryType,
    amountCents: int,
    description: string,
    cardBrand: Option<CardBrand>)

  /**
   * The fixed messages an error response carries. The model keeps which message
   * was sent; `MessageText` is the text itself.
   */
  datatype ErrorMessage =
    | InvalidAmount | AmountNotPositive | InvalidType | MissingDescription | InvalidCardBrand | NotFound

  function MessageText(m: ErrorMessage): string {
    match m
    case InvalidAmount => "Campo 'amount' inválido"
    case AmountNotPositive => "Campo 'amount' deve ser > 0"
    case InvalidType => "Campo 'type' inválido"
    case MissingDescription => "Campo 'description' é obrigatório"
    case InvalidCardBrand => "Campo 'cardBrand' inválido"
    case NotFound => "Registro não encontrado"
  }

  /** Different messages have different texts, so keeping the message loses nothing. */
  lemma MessageTextInjective(m1: ErrorMessage, m2: ErrorMessage)
    ensures MessageText(m1) == MessageText(m2) ==> m1 == m2
  {
  }

  /** The error half of the envelope: a message and optional details. */
  datatype ApiError = ApiError(message: ErrorMessage, details: Option<string>)

  /** The response envelope: `{ok: true, data}` or `{ok: false, error}`. */
  datatype ApiResponse<T> = Ok(data: T) | Err(error: ApiError)
}
