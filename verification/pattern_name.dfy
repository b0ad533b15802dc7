/** `PatternName` (src/domain/value_objects/pattern_name.rs): the name of a
    freight pattern, stored trimmed and never empty. */
module PatternNames {
  import opened Wrappers
  import opened Text

  type PatternName = s: string | IsTrimmed(s) witness "0"

  /** `PatternName::new`: blank input is rejected, anything else is kept trimmed. */
  function New(name: string): (r: Result<PatternName>)
    ensures r.Failure? <==> AllWhitespace(name)
    ensures r.Failure? ==> r.error == Blank("pattern name")
    ensures r.Success? ==> r.value == Trim(name)
  {
    var t := Trim(name);
    if t == [] then Failure(Blank("pattern name")) else Success(t)
  }

  function Value(n: PatternName): string {
    n
  }

  /** Names built from texts that differ only in surrounding whitespace are equal. */
  lemma SurroundingWhitespaceIgnored(before: string, n: PatternName, after: string)
    requires AllWhitespace(before) && AllWhitespace(after)
    ensures New(before + n + after) == Success(n)
  {
    TrimSurrounded(before, n, after);
  }

  /** Building a name from the text of an existing name gives that name back. */
  lemma NewOfValue(n: PatternName)
    ensures New(Value(n)) == Success(n)
  {
    TrimOfTrimmed(n);
  }
}
