/**
 * The birthdays page: of the clients loaded in birth-date order, the ones
 * whose birthday is today (same day of the month and same month, whatever the
 * year), the count line above them and the empty state.
 */
module Aniversariantes {
  import opened Wrappers
  import opened JsText
  import opened Tables
  import opened Records

  /** `new Date(null)` is the epoch: a client without a birth date is read as born on 1 January 1970. */
  const Epoch := Date(1970, 1, 1)

  /** The date the filter reads for a client. */
  function BirthDate(c: Cliente): (r: Date)
    ensures c.dataNascimento.Some? ==> r == c.dataNascimento.value
    ensures c.dataNascimento.None? ==> r == Epoch
  {
    c.dataNascimento.GetOr(Epoch)
  }

  /** The filter's test: `getDate()` and `getMonth()` of the birth date equal today's. */
  predicate IsBirthday(today: Date, c: Cliente) {
    BirthDate(c).day == today.day && BirthDate(c).month == today.month
  }

  function BirthdayOn(today: Date): Cliente -> bool {
    c => IsBirthday(today, c)
  }

  /** The clients of `clientes` whose birthday is `today`, in the order they were loaded. */
  function Aniversariantes(clientes: seq<Cliente>, today: Date): (r: seq<Cliente>)
    ensures forall c :: c in r <==> c in clientes && IsBirthday(today, c)
    ensures |r| <= |clientes|
  {
    Filter(clientes, BirthdayOn(today))
  }

  /** The year of the birth date never decides inclusion, nor does the year of today. */
  lemma YearIgnored(clientes: seq<Cliente>, today: Date, c: Cliente, year: int, todayYear: int)
    requires c.dataNascimento.Some?
    ensures var moved := c.(dataNascimento := Some(c.dataNascimento.value.(year := year)));
      IsBirthday(today.(year := todayYear), moved) == IsBirthday(today, c)
  {
  }

  /** A client born on 15 March of some year is listed on every 15 March, and not on the 16th. */
  lemma BornOnTheFifteenthOfMarch(c: Cliente, year: int)
    requires c.dataNascimento == Some(Date(1990, 3, 15))
    ensures c in Aniversariantes([c], Date(year, 3, 15))
    ensures c !in Aniversariantes([c], Date(year, 3, 16))
  {
  }

  /** The result keeps the loaded clients' relative order. */
  lemma AniversariantesKeepOrder(clientes: seq<Cliente>, today: Date)
    ensures IsSubsequence(Aniversariantes(clientes, today), clientes)
  {
    FilterIsSubsequence(clientes, BirthdayOn(today));
  }

  /** Dates compared as the store orders them: by year, then month, then day. */
  predicate DateLe(a: Date, b: Date) {
    a.year < b.year || (a.year == b.year && (a.month < b.month || (a.month == b.month && a.day <= b.day)))
  }

  /** `order('data_nascimento')`: ascending, clients without a birth date last. */
  predicate BirthOrder(a: Cliente, b: Cliente) {
    match (a.dataNascimento, b.dataNascimento)
    case (Some(x), Some(y)) => DateLe(x, y)
    case (_, None) => true
    case (None, Some(_)) => false
  }

  /** A list loaded in birth-date order gives a result in birth-date order. */
  lemma AniversariantesSorted(clientes: seq<Cliente>, today: Date)
    requires SortedBy(clientes, BirthOrder)
    ensures SortedBy(Aniversariantes(clientes, today), BirthOrder)
  {
    FilterKeepsSorted(clientes, BirthdayOn(today), BirthOrder);
  }

  /**
   * `loadAniversariantes`: the rows of a query that succeeded (`Some`) are
   * filtered; after an error the list shown before stays.
   */
  function AfterLoad(shown: seq<Cliente>, query: Option<seq<Cliente>>, today: Date): (r: seq<Cliente>)
    ensures query.None? ==> r == shown
    ensures query.Some? ==> forall c :: c in r <==> c in query.value && IsBirthday(today, c)
  {
    match query
    case None => shown
    case Some(rows) => Aniversariantes(rows, today)
  }

  /** The words after the count: singular for exactly one client. */
  function CountLabel(n: nat): (r: string)
    ensures r == "cliente fazendo" <==> n == 1
    ensures r == "clientes fazendo" <==> n != 1
  {
    if n == 1 then "cliente fazendo" else "clientes fazendo"
  }

  /** The line under the title: the count, the words, then `aniversário hoje 🎉`. */
  function CountLine(shown: seq<Cliente>): (r: string)
    ensures ParseInt(r) == Some(|shown|)
  {
    var rest := " " + CountLabel(|shown|) + " anivers\U{E1}rio hoje \U{1F389}";
    CountThenText(|shown|, rest);
    IntToString(|shown|) + rest
  }

  /** A count followed by a space reads back, through `parseInt`, as that count. */
  lemma CountThenText(n: nat, rest: string)
    requires rest != [] && rest[0] == ' '
    ensures ParseInt(IntToString(n) + rest) == Some(n)
  {
    NatToStringValue(n);
    ParseIntNumeral(NatToString(n), rest);
  }

  /** What the page body shows: the empty state, or one card per client in list order. */
  datatype View = NenhumAniversariante | Cards(clientes: seq<Cliente>)

  function PageView(shown: seq<Cliente>): (r: View)
    ensures r == NenhumAniversariante <==> |shown| == 0
    ensures r.Cards? ==> r.clientes == shown && |shown| > 0
  {
    if |shown| == 0 then NenhumAniversariante else Cards(shown)
  }
}
