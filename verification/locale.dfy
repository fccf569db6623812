/** Which of the three locale files the tray reads for a host locale tag. */
module Locale {

  /** The locale files shipped with the tray. */
  datatype LocaleFile = En | Es | Pt

  /** JavaScript's `a || b` on two strings: `a` when it is truthy (non-empty),
      otherwise `b`. */
  function JsOr(a: string, b: string): (r: string)
    ensures |a| > 0 ==> r == a
    ensures |a| == 0 ==> r == b
  {
    if |a| > 0 then a else b
  }

  /** A `switch` statement: the branch of the first case whose value is
      strictly equal to `tag`, or `default` when none is. */
  function Switch<T>(tag: string, cases: seq<(string, T)>, default: T): (r: T)
    ensures (forall i :: 0 <= i < |cases| ==> cases[i].0 != tag) ==> r == default
    ensures forall i :: 0 <= i < |cases| && cases[i].0 == tag ==>
              (forall j :: 0 <= j < i ==> cases[j].0 != tag) ==> r == cases[i].1
  {
    if |cases| == 0 then default
    else if cases[0].0 == tag then cases[0].1
    else Switch(tag, cases[1..], default)
  }

  /** The case values as the code evaluates them: `'es-419' || 'es'` and
      `'pt-BR' || 'pt-PT'`, each of which is its left operand. */
  function Cases(): seq<(string, LocaleFile)>
  {
    [(JsOr("es-419", "es"), Es), (JsOr("pt-BR", "pt-PT"), Pt)]
  }

  /** `getLocale` as written: only the exact tags "es-419" and "pt-BR" leave
      English. */
  function GetLocale(tag: string): (f: LocaleFile)
    ensures f == Es <==> tag == "es-419"
    ensures f == Pt <==> tag == "pt-BR"
    ensures f == En <==> tag != "es-419" && tag != "pt-BR"
  {
    Switch(tag, Cases(), En)
  }

  /** The right-hand operands are never compared: "es" and "pt-PT" get the
      English file. */
  lemma SecondAlternativesFallBackToEnglish()
    ensures GetLocale("es") == En
    ensures GetLocale("pt-PT") == En
  {
  }

  /** The selection the `||` in each case label was evidently meant to give:
      either tag of a pair selects that pair's file. */
  function IntendedLocale(tag: string): (f: LocaleFile)
    ensures f == Es <==> tag == "es-419" || tag == "es"
    ensures f == Pt <==> tag == "pt-BR" || tag == "pt-PT"
    ensures f == En <==> tag !in ["es-419", "es", "pt-BR", "pt-PT"]
  {
    Switch(tag, [("es-419", Es), ("es", Es), ("pt-BR", Pt), ("pt-PT", Pt)], En)
  }

  /** The intended selection differs from the written one exactly on the
      tags "es" and "pt-PT". */
  lemma IntendedDiffersOnlyOnSecondAlternatives(tag: string)
    ensures IntendedLocale(tag) != GetLocale(tag) <==> tag == "es" || tag == "pt-PT"
  {
  }
}
