/** String helpers of the sink's common utilities (`StringUtil`). */
module StringUtil {
  import opened Wrappers

  /** Java renders a null reference concatenated into a string as these four letters. */
  const NULL_TEXT: string := "null"

  /**
   * `"'" + s + "'"`: the argument wrapped in single quotes. A null argument
   * (`None`) is rendered by Java's string concatenation as `null`.
   */
  function SingleQuote(s: Option<string>): (r: string)
    ensures s.Some? ==> |r| == |s.value| + 2
    ensures |r| >= 2 && r[0] == '\'' && r[|r| - 1] == '\''
    ensures s.Some? ==> r[1..|r| - 1] == s.value
    ensures s.None? ==> r[1..|r| - 1] == NULL_TEXT
  {
    var text := match s case Some(t) => t case None => NULL_TEXT;
    ['\''] + text + ['\'']
  }

  /** True when the string is null or has no characters. */
  function IsEmpty(s: Option<string>): (r: bool)
    ensures s.None? ==> r
    ensures s.Some? ==> (r <==> |s.value| == 0)
  {
    match s
    case None => true
    case Some(t) => t == []
  }

  /** Quoting loses nothing: distinct strings have distinct quoted forms. */
  lemma SingleQuoteInjective(a: string, b: string)
    requires SingleQuote(Some(a)) == SingleQuote(Some(b))
    ensures a == b
  {
    var qa, qb := SingleQuote(Some(a)), SingleQuote(Some(b));
    assert a == qa[1..|qa| - 1] == qb[1..|qb| - 1] == b;
  }

  /** A quoted string, even of the empty string or of null, is never empty. */
  lemma SingleQuotedIsNotEmpty(s: Option<string>)
    ensures !IsEmpty(Some(SingleQuote(s)))
  {
  }
}
