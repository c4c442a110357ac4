/**
 * `toPersianNumber` of static/js/main.js, the browser-side twin of the
 * `persian_number` filter: one regular-expression replace of `[0-9]` over
 * the text of its argument.
 */
module MainJs {
  import PyInt
  import PersianTags

  const PersianDigits: string := "۰۱۲۳۴۵۶۷۸۹"

  /** `num.toString().replace(/[0-9]/g, d => persianDigits[d])`, on the text of `num`. */
  function ToPersianNumber(s: string): (r: string)
    ensures |r| == |s|
    ensures forall i :: 0 <= i < |s| && PyInt.IsAsciiDigit(s[i]) ==>
      r[i] == PersianDigits[s[i] as int - '0' as int]
    ensures forall i :: 0 <= i < |s| && !PyInt.IsAsciiDigit(s[i]) ==> r[i] == s[i]
    ensures forall i :: 0 <= i < |r| ==> !PyInt.IsAsciiDigit(r[i])
  {
    if s == [] then []
    else
      var c := if PyInt.IsAsciiDigit(s[0]) then PersianDigits[s[0] as int - '0' as int] else s[0];
      [c] + ToPersianNumber(s[1..])
  }

  /** The output holds no ASCII digit, so a second pass changes nothing. */
  lemma ToPersianNumberIdempotent(s: string)
    ensures ToPersianNumber(ToPersianNumber(s)) == ToPersianNumber(s)
  {
  }

  /** On the same text the browser and the server render the same digits. */
  lemma AgreesWithFilter(s: string)
    ensures ToPersianNumber(s) == PersianTags.Localise(s)
  {
  }
}
