/** The case-insensitive boolean-string coercion used for environment flags. */
module BooleanString {
  import opened Wrappers
  import opened Strs

  /** Accepts exactly the strings whose lower-case form is `true` or `false`. */
  function Parse(s: string): (r: Result<bool, string>)
    ensures r.Success? <==> ToLower(s) == "true" || ToLower(s) == "false"
    ensures r.Success? ==> (r.value <==> ToLower(s) == "true")
  {
    var lower := ToLower(s);
    if lower == "true" || lower == "false" then Success(lower == "true")
    else Failure("Invalid input")
  }

  /** The text of a boolean, as `String(b)` renders it. */
  function Text(b: bool): string
  {
    if b then "true" else "false"
  }

  /** Parsing the text of a boolean gives that boolean back. */
  lemma RoundTrip(b: bool)
    ensures Parse(Text(b)) == Success(b)
  {
    assert ToLower("true") == "true";
    assert ToLower("false") == "false";
  }

  /** Case does not matter: a string parses like its lower-case form. */
  lemma CaseInsensitive(s: string)
    ensures Parse(s) == Parse(ToLower(s))
  {
    ToLowerIdempotent(s);
  }

  /** `TRUE` and `True` both read as true. */
  lemma UpperCaseTrue()
    ensures Parse("TRUE") == Success(true)
    ensures Parse("True") == Success(true)
  {
    assert ToLower("TRUE") == "true";
    assert ToLower("True") == "true";
  }
}
