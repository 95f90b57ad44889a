/**
 * The dashboard: its own copy of the birthday filter, the birthday banner it
 * shows above the menu, and the first name in the greeting.
 */
module Dashboard {
  import opened Wrappers
  import opened JsText
  import opened Tables
  import opened Records
  import Aniversariantes

  /** The dashboard's filter, written out again as the page does: day of the month and month of the birth date equal today's. */
  predicate BirthdayToday(today: Date, c: Cliente)
    ensures BirthdayToday(today, c) <==> Aniversariantes.IsBirthday(today, c)
    ensures c.dataNascimento.None? ==> (BirthdayToday(today, c) <==> today.day == 1 && today.month == 1)
  {
    var nasc := c.dataNascimento.GetOr(Aniversariantes.Epoch);
    nasc.day == today.day && nasc.month == today.month
  }

  /** The clients of the loaded list the banner lists. */
  function DashboardAniversariantes(clientes: seq<Cliente>, today: Date): (r: seq<Cliente>)
    ensures forall c :: c in r <==> c in clientes && BirthdayToday(today, c)
  {
    Filter(clientes, c => BirthdayToday(today, c))
  }

  /** Filtering by two tests that agree on every row gives the same rows. */
  lemma {:induction false} FilterSameTest<T>(t: seq<T>, p: T -> bool, q: T -> bool)
    requires forall x :: x in t ==> p(x) == q(x)
    ensures Filter(t, p) == Filter(t, q)
  {
    if t != [] {
      assert forall x :: x in t[1..] ==> x in t;
      FilterSameTest(t[1..], p, q);
    }
  }

  /** The dashboard and the birthdays page list the same clients, in the same order. */
  lemma SameAsBirthdaysPage(clientes: seq<Cliente>, today: Date)
    ensures DashboardAniversariantes(clientes, today) == Aniversariantes.Aniversariantes(clientes, today)
  {
    FilterSameTest(clientes, c => BirthdayToday(today, c), Aniversariantes.BirthdayOn(today));
  }

  /** The banner's list keeps the loaded order, which is birth-date order. */
  lemma BannerKeepsOrder(clientes: seq<Cliente>, today: Date)
    requires SortedBy(clientes, Aniversariantes.BirthOrder)
    ensures IsSubsequence(DashboardAniversariantes(clientes, today), clientes)
    ensures SortedBy(DashboardAniversariantes(clientes, today), Aniversariantes.BirthOrder)
  {
    SameAsBirthdaysPage(clientes, today);
    Aniversariantes.AniversariantesKeepOrder(clientes, today);
    Aniversariantes.AniversariantesSorted(clientes, today);
  }

  /** The banner is shown when the list is not empty (`aniversariantes.length > 0`). */
  predicate ShowsBanner(shown: seq<Cliente>)
    ensures ShowsBanner(shown) <==> exists c :: c in shown
  {
    assert shown != [] ==> shown[0] in shown;
    |shown| > 0
  }

  /** After a load, the banner is shown exactly when some loaded client has a birthday today. */
  lemma BannerIffSomeBirthday(clientes: seq<Cliente>, today: Date)
    ensures ShowsBanner(DashboardAniversariantes(clientes, today)) <==> exists c :: c in clientes && BirthdayToday(today, c)
  {
    var r := DashboardAniversariantes(clientes, today);
    if exists c :: c in clientes && BirthdayToday(today, c) {
      var c :| c in clientes && BirthdayToday(today, c);
      assert c in r;
    }
    if |r| > 0 {
      assert r[0] in r;
    }
  }

  /**
   * `profile?.nome?.split(' ')[0]`: nothing without a profile or a name,
   * otherwise what precedes the first space, or the whole name.
   */
  function FirstName(nome: Option<string>): (r: Option<string>)
    ensures r.None? <==> nome.None?
    ensures r.Some? ==> ' ' !in r.value && StartsWith(nome.value, r.value)
    ensures r.Some? ==> |r.value| == |nome.value| || nome.value[|r.value|] == ' '
  {
    match nome
    case None => None
    case Some(n) => Some(FirstSegment(n, ' '))
  }

  /** A name without a space is greeted whole. */
  lemma {:induction false} FirstNameOfSingleName(n: string)
    requires ' ' !in n
    ensures FirstName(Some(n)) == Some(n)
  {
    var r := FirstSegment(n, ' ');
    assert forall i :: 0 <= i < |n| ==> n[i] in n;
    assert r == n[..|n|] == n;
  }

  /** A name made of a first name, a space and the rest is greeted by that first name. */
  lemma {:induction false} FirstNameOfFullName(first: string, rest: string)
    requires ' ' !in first
    ensures FirstName(Some(first + " " + rest)) == Some(first)
  {
    var n := first + " " + rest;
    var r := FirstSegment(n, ' ');
    assert n[|first|] == ' ';
    assert forall i :: 0 <= i < |first| ==> n[i] == first[i] && first[i] in first;
    assert r == n[..|first|] == first;
  }
}
