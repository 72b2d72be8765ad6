/**
 * `StringUtil`: three substring helpers cut at an occurrence of a symbol.
 * A missing (`null`) input or an empty one always gives "". A missing symbol
 * with a non-empty input throws from `indexOf`/`lastIndexOf`; a `substring`
 * whose start is past its end throws as well. Both throws are the `Err` cases.
 * Indices count characters; for text without surrogate pairs these are Java's
 * UTF-16 indices.
 */
module StringUtil {
  import opened Wrappers
  import opened JavaLang

  const NULL_POINTER: string := "java.lang.NullPointerException"
  const INDEX_OUT_OF_BOUNDS: string := "java.lang.StringIndexOutOfBoundsException"

  /** The input is present and not empty: the only case in which the symbol is searched for. */
  predicate Searched(input: Option<string>)
  {
    input.Some? && input.value != ""
  }

  /** `substringFirst`: what comes before the first occurrence of the symbol, "" when it does not occur. */
  function SubstringFirst(input: Option<string>, symbol: Option<string>): (r: Result<string, string>)
    ensures r.Err? <==> Searched(input) && symbol.None?
    ensures r.Err? ==> r.error == NULL_POINTER
    ensures r.Ok? && !(Searched(input) && Contains(input.value, symbol.value)) ==> r.value == ""
    ensures r.Ok? && Searched(input) && Contains(input.value, symbol.value) ==>
      StartsWith(input.value, r.value) && OccursAt(input.value, symbol.value, |r.value|)
    ensures r.Ok? && Searched(input) && Contains(input.value, symbol.value) ==>
      forall j | 0 <= j < |r.value| :: !OccursAt(input.value, symbol.value, j)
  {
    if !Searched(input) then Ok("")
    else if symbol.None? then Err(NULL_POINTER)
    else
      var s := input.value;
      var index := IndexOf(s, symbol.value);
      if index == -1 then Ok("") else Ok(s[..index])
  }

  /** The part `substringFirst` keeps never holds the whole (non-empty) symbol. */
  lemma SubstringFirstAvoidsSymbol(input: string, symbol: string)
    requires input != "" && symbol != ""
    ensures !Contains(SubstringFirst(Some(input), Some(symbol)).value, symbol)
  {
    var r := SubstringFirst(Some(input), Some(symbol)).value;
    if Contains(r, symbol) {
      var j :| 0 <= j <= |r| && OccursAt(r, symbol, j);
      assert r == input[..|r|];
      assert input[j..j + |symbol|] == r[j..j + |symbol|];
      assert OccursAt(input, symbol, j);
    }
  }

  /** The position `substringLast` and `substringLast2` cut at, or -1 when one of their guards gives "". */
  function LastCut(s: string, symbol: string): (index: int)
    requires s != ""
    ensures index == -1 || (0 < index < |s| - 1 && OccursAt(s, symbol, index)) || (index == |s| && symbol == "")
    ensures index != -1 ==> forall j | index < j :: !OccursAt(s, symbol, j)
    ensures index == -1 <==> (var last := LastIndexOf(s, symbol); last == -1 || last == 0 || last == |s| - 1)
  {
    var index := LastIndexOf(s, symbol);
    if index == -1 || index == 0 || index == |s| - 1 then -1 else index
  }

  /**
   * `substringLast`: from the last occurrence of the symbol to the end, the
   * symbol included; "" when it does not occur, occurs at index 0 or at the
   * last index.
   */
  function SubstringLast(input: Option<string>, symbol: Option<string>): (r: Result<string, string>)
    ensures r.Err? <==> Searched(input) && symbol.None?
    ensures r.Err? ==> r.error == NULL_POINTER
    ensures r.Ok? && r.value != "" ==> Searched(input) && EndsWith(input.value, r.value)
    ensures r.Ok? && r.value != "" ==>
      StartsWith(r.value, symbol.value) && 0 < |input.value| - |r.value| < |input.value| - 1
    ensures r.Ok? && r.value != "" ==>
      forall j | |input.value| - |r.value| < j :: !OccursAt(input.value, symbol.value, j)
    ensures Searched(input) && symbol.Some? ==>
      var s := input.value;
      var last := LastIndexOf(s, symbol.value);
      r == Ok(if last == -1 || last == 0 || last == |s| - 1 then "" else s[last..])
  {
    if !Searched(input) then Ok("")
    else if symbol.None? then Err(NULL_POINTER)
    else
      var s := input.value;
      var index := LastCut(s, symbol.value);
      if index == -1 then Ok("") else Ok(s[index..])
  }

  /**
   * `substringLast2` as written: the same guards, but the cut starts one past
   * the symbol. When the symbol is empty, `lastIndexOf` gives the length and
   * `substring(length + 1, length)` throws.
   */
  function SubstringLast2AsWritten(input: Option<string>, symbol: Option<string>): (r: Result<string, string>)
    ensures r.Err? <==> Searched(input) && (symbol.None? || symbol.value == "")
    ensures r.Err? ==> r.error == if symbol.None? then NULL_POINTER else INDEX_OUT_OF_BOUNDS
    ensures !Searched(input) ==> r == Ok("")
    ensures Searched(input) && symbol.Some? && symbol.value != "" ==>
      var s := input.value;
      var last := LastIndexOf(s, symbol.value);
      r == Ok(if last == -1 || last == 0 || last == |s| - 1 then "" else s[last + 1..])
  {
    if !Searched(input) then Ok("")
    else if symbol.None? then Err(NULL_POINTER)
    else
      var s := input.value;
      var index := LastCut(s, symbol.value);
      if index == -1 then Ok("")
      else if index + 1 > |s| then Err(INDEX_OUT_OF_BOUNDS)
      else Ok(s[index + 1..])
  }

  /** The failing call: `substringLast2("ab", "")`. */
  lemma SubstringLast2EmptySymbolThrows()
    ensures SubstringLast2AsWritten(Some("ab"), Some("")) == Err(INDEX_OUT_OF_BOUNDS)
    ensures SubstringLast(Some("ab"), Some("")) == Ok("")
  {
    assert LastIndexOf("ab", "") == 2 by {
      assert OccursAt("ab", "", 2);
    }
  }

  /**
   * `substringLast2` as intended: what `substringLast` returns without its
   * first character, so an empty symbol gives "" like it does there.
   */
  function SubstringLast2(input: Option<string>, symbol: Option<string>): (r: Result<string, string>)
    ensures r.Err? <==> Searched(input) && symbol.None?
    ensures r.Err? ==> r.error == NULL_POINTER
    ensures r.Ok? && r.value != "" ==> Searched(input) && EndsWith(input.value, r.value)
    ensures Searched(input) && symbol.Some? ==>
      var s := input.value;
      var last := LastIndexOf(s, symbol.value);
      r == Ok(if last == -1 || last == 0 || last >= |s| - 1 then "" else s[last + 1..])
  {
    if !Searched(input) then Ok("")
    else if symbol.None? then Err(NULL_POINTER)
    else
      var s := input.value;
      var index := LastCut(s, symbol.value);
      if index == -1 || index + 1 > |s| then Ok("") else Ok(s[index + 1..])
  }

  /** `substringLast2` drops exactly the first character `substringLast` keeps. */
  lemma SubstringLast2DropsOne(input: Option<string>, symbol: Option<string>)
    ensures SubstringLast2(input, symbol).Err? == SubstringLast(input, symbol).Err?
    ensures SubstringLast(input, symbol).Ok? ==>
      var whole := SubstringLast(input, symbol).value;
      SubstringLast2(input, symbol).value == if whole == "" then "" else whole[1..]
  {
  }

  /** For every symbol but the empty one, the corrected `substringLast2` is the one written. */
  lemma SubstringLast2AgreesOnNonEmptySymbols(input: Option<string>, symbol: Option<string>)
    requires symbol.None? || symbol.value != ""
    ensures SubstringLast2(input, symbol) == SubstringLast2AsWritten(input, symbol)
  {
  }
}
