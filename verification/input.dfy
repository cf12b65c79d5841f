/** What the screens' form fields hold once read.  Text boxes are strings;
    a numeric box is looked at twice, first as text (is it empty?) and then
    through `parseInt`/`parseFloat` (is it a number?). */
module Input {
  import opened Domain

  /** A numeric text box: empty, text that does not parse (`NaN`), or the
      number it parses to. */
  datatype Field<T> = Blank | Invalid | Parsed(value: T)

  /** `s || undefined`: the empty string is stored as an absent value. */
  function Optional(s: string): (r: Option<string>)
    ensures r.None? <==> s == ""
    ensures r.Some? ==> r.value == s
  {
    if s == "" then None else Some(s)
  }

  /** `o || ''`: how an edit form is filled from an optional value. */
  function OrEmpty(o: Option<string>): (r: string)
    ensures o.None? ==> r == ""
    ensures o.Some? ==> r == o.value
  {
    match o
    case None => ""
    case Some(s) => s
  }

  /** Opening a record for editing and saving it untouched gives back the
      optional value, unless it was stored as an empty string. */
  lemma OptionalRoundTrip(o: Option<string>)
    requires o != Some("")
    ensures Optional(OrEmpty(o)) == o
  {
  }

  /** Reading back the text of a stored optional value gives the text. */
  lemma OrEmptyRoundTrip(s: string)
    ensures OrEmpty(Optional(s)) == s
  {
  }

  /** `parseInt(s) || 0`: a box that is empty or does not parse counts
      as 0. */
  function OrZero(f: Field<int>): (r: int)
    ensures r == 0 <==> !f.Parsed? || f.value == 0
    ensures r != 0 ==> f == Parsed(r)
  {
    if f.Parsed? then f.value else 0
  }
}
