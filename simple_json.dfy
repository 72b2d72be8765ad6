/**
 * `SimpleJson.parse`: a flat `{"k":"v",...}` reader built from `trim`,
 * `replaceAll` and `split`, filling a `HashMap<String, String>`.
 */
module SimpleJson {

  import opened Wrappers
  import opened JavaLang

  // --------------------------------------------- the Java primitives it uses

  /** The characters Java's regex `$` treats as line terminators. */
  predicate IsLineTerminator(c: char) {
    c == '\n' || c == '\r' || c == '\U{85}' || c == '\U{2028}' || c == '\U{2029}'
  }

  /** `s.replaceAll("^[c]", "")`: drop one leading `c`. */
  function StripLeading(s: string, c: char): (r: string)
    ensures |s| > 0 && s[0] == c ==> r == s[1..]
    ensures !(|s| > 0 && s[0] == c) ==> r == s
    ensures forall x :: x in r ==> x in s
  {
    if |s| > 0 && s[0] == c then s[1..] else s
  }

  /** `s.replaceAll("[c]$", "")` for a `c` that is not a line terminator. Without
      MULTILINE, `$` matches at the end of the input and also just before a line
      terminator (or a final "\r\n") that ends it. */
  function StripTrailing(s: string, c: char): (r: string)
    requires !IsLineTerminator(c)
    ensures |r| == |s| || |r| == |s| - 1
    ensures |s| > 0 && s[|s| - 1] == c ==> r == s[..|s| - 1]
    ensures |s| > 0 && !IsLineTerminator(s[|s| - 1]) && s[|s| - 1] != c ==> r == s
    ensures forall x :: x in r ==> x in s
  {
    var n := |s|;
    if n >= 1 && s[n - 1] == c then s[..n - 1]
    else if n >= 2 && s[n - 2] == c && IsLineTerminator(s[n - 1]) then s[..n - 2] + s[n - 1..]
    else if n >= 3 && s[n - 3] == c && s[n - 2..] == "\r\n" then s[..n - 3] + s[n - 2..]
    else s
  }

  /** `s.replaceAll("^\"|\"$", "")`: one leading and one trailing double quote go. */
  function StripQuotes(s: string): string {
    StripTrailing(StripLeading(s, '"'), '"')
  }

  /** Every piece between occurrences of `c`, empty pieces included. */
  function SplitAll(s: string, c: char): (parts: seq<string>)
    ensures |parts| >= 1
    ensures forall i :: 0 <= i < |parts| ==> c !in parts[i]
  {
    if c !in s then [s]
    else
      var i := FirstIndex(s, c);
      [s[..i]] + SplitAll(s[i + 1..], c)
  }

  function FirstIndex(s: string, c: char): (i: nat)
    requires c in s
    ensures i < |s| && s[i] == c && c !in s[..i]
  {
    if s[0] == c then 0 else 1 + FirstIndex(s[1..], c)
  }

  function DropTrailingEmpty(parts: seq<string>): (r: seq<string>)
    ensures |r| <= |parts| && r == parts[..|r|]
    ensures r == [] || r[|r| - 1] != []
    ensures forall i :: |r| <= i < |parts| ==> parts[i] == []
  {
    if parts == [] || parts[|parts| - 1] != [] then parts
    else DropTrailingEmpty(parts[..|parts| - 1])
  }

  /** `s.split(",")`: the whole input when there is no separator; otherwise every
      piece, with the trailing empty pieces removed. */
  function Split(s: string, c: char): seq<string> {
    if c !in s then [s] else DropTrailingEmpty(SplitAll(s, c))
  }

  /** `p.split(":", 2)` when it has two elements: the text before the first `:`
      and everything after it. */
  function SplitFirst(p: string, c: char): (r: Option<(string, string)>)
    ensures r.None? <==> c !in p
    ensures r.Some? ==> c !in r.value.0 && p == r.value.0 + [c] + r.value.1
  {
    if c !in p then None
    else
      var i := FirstIndex(p, c);
      assert p == p[..i] + [c] + p[i + 1..];
      Some((p[..i], p[i + 1..]))
  }

  // ------------------------------------------------------------- the parser

  /** The entry one comma-separated part contributes, if it has a `:`. */
  function Entry(p: string): Option<(string, string)> {
    match SplitFirst(p, ':')
    case None => None
    case Some((k, v)) => Some((StripQuotes(Trim(k)), StripQuotes(Trim(v))))
  }

  /** The parts of the text, after trimming and removing one `{` and one `}`. */
  function Parts(text: string): seq<string> {
    Split(StripTrailing(StripLeading(Trim(text), '{'), '}'), ',')
  }

  /** The entries of all parts, in order. */
  function Entries(parts: seq<string>): (es: seq<Option<(string, string)>>)
    ensures |es| == |parts|
    ensures forall i :: 0 <= i < |parts| ==> es[i] == Entry(parts[i])
  {
    seq(|parts|, i requires 0 <= i < |parts| => Entry(parts[i]))
  }

  /** `map.put` for each entry in turn. */
  function Apply(es: seq<Option<(string, string)>>, m: map<string, string>): map<string, string> {
    if es == [] then m
    else Apply(es[1..], if es[0].Some? then m[es[0].value.0 := es[0].value.1] else m)
  }

  /** What `SimpleJson.parse(text)` returns. */
  function ParseResult(text: string): map<string, string> {
    Apply(Entries(Parts(text)), map[])
  }

  /** `SimpleJson.parse(text)`. */
  method Parse(text: string) returns (m: map<string, string>)
    ensures m == ParseResult(text)
  {
    m := map[];
    var t := Trim(text);
    t := StripLeading(t, '{');
    t := StripTrailing(t, '}');
    var parts := Split(t, ',');
    ghost var es := Entries(parts);
    var i := 0;
    while i < |parts|
      invariant 0 <= i <= |parts|
      invariant Apply(es[i..], m) == Apply(es, map[])
    {
      var kv := SplitFirst(parts[i], ':');
      if kv.Some? {
        var k := StripQuotes(Trim(kv.value.0));
        var v := StripQuotes(Trim(kv.value.1));
        m := m[k := v];
      }
      assert es[i..][1..] == es[i + 1..];
      i := i + 1;
    }
  }

  // ------------------------------------------------------------- properties

  predicate HasKey(es: seq<Option<(string, string)>>, i: int, k: string) {
    0 <= i < |es| && es[i].Some? && es[i].value.0 == k
  }

  /** The keys of the result: those already present and those of every entry. */
  lemma {:induction false} ApplyKeys(es: seq<Option<(string, string)>>, m: map<string, string>, k: string)
    ensures k in Apply(es, m) <==> k in m || exists i :: HasKey(es, i, k)
  {
    if es != [] {
      var m' := if es[0].Some? then m[es[0].value.0 := es[0].value.1] else m;
      assert k in m' <==> k in m || HasKey(es, 0, k);
      ApplyKeys(es[1..], m', k);
      if exists i :: HasKey(es[1..], i, k) {
        var i :| HasKey(es[1..], i, k);
        assert HasKey(es, i + 1, k);
      }
      if exists i :: HasKey(es, i, k) {
        var i :| HasKey(es, i, k);
        if i > 0 {
          assert HasKey(es[1..], i - 1, k);
        }
      }
    }
  }

  /** Entries whose keys differ from `k` leave the value at `k` alone. */
  lemma {:induction false} ApplyKeeps(es: seq<Option<(string, string)>>, m: map<string, string>, k: string)
    requires k in m
    requires forall j :: !HasKey(es, j, k)
    ensures k in Apply(es, m) && Apply(es, m)[k] == m[k]
  {
    if es != [] {
      var m' := if es[0].Some? then m[es[0].value.0 := es[0].value.1] else m;
      assert !HasKey(es, 0, k);
      forall j ensures !HasKey(es[1..], j, k) {
        assert !HasKey(es, j + 1, k);
      }
      ApplyKeeps(es[1..], m', k);
    }
  }

  /** A later entry with the same key overwrites an earlier one: the value kept is the last one's. */
  lemma {:induction false} LastEntryWins(es: seq<Option<(string, string)>>, m: map<string, string>, i: nat)
    requires i < |es| && es[i].Some?
    requires forall j :: i < j ==> !HasKey(es, j, es[i].value.0)
    ensures es[i].value.0 in Apply(es, m)
    ensures Apply(es, m)[es[i].value.0] == es[i].value.1
  {
    var m' := if es[0].Some? then m[es[0].value.0 := es[0].value.1] else m;
    var k := es[i].value.0;
    if i == 0 {
      forall j | 0 <= j ensures !HasKey(es[1..], j, k) {
        assert !HasKey(es, j + 1, k);
      }
      ApplyKeeps(es[1..], m', k);
    } else {
      forall j | i - 1 < j ensures !HasKey(es[1..], j, k) {
        assert !HasKey(es, j + 1, k);
      }
      LastEntryWins(es[1..], m', i - 1);
    }
  }

  /** The parsed map has a key exactly when some part has a `:` and that key; its
      value is the one of the last such part. */
  lemma ParsedEntries(text: string, k: string)
    ensures var es := Entries(Parts(text));
      k in ParseResult(text) <==> exists i :: HasKey(es, i, k)
    ensures var es := Entries(Parts(text));
      forall i :: HasKey(es, i, k) && (forall j :: i < j ==> !HasKey(es, j, k)) ==>
        k in ParseResult(text) && ParseResult(text)[k] == es[i].value.1
  {
    var es := Entries(Parts(text));
    ApplyKeys(es, map[], k);
    forall i | HasKey(es, i, k) && (forall j :: i < j ==> !HasKey(es, j, k))
      ensures k in ParseResult(text) && ParseResult(text)[k] == es[i].value.1
    {
      LastEntryWins(es, map[], i);
    }
  }

  /** Text without any `:` parses to the empty map; in particular "{}" and "". */
  lemma NoColonNoEntries(text: string)
    requires ':' !in text
    ensures ParseResult(text) == map[]
  {
    var parts := Parts(text);
    NoColonParts(parts, text);
    forall k ensures k !in ParseResult(text) {
      ApplyKeys(Entries(parts), map[], k);
      forall i ensures !HasKey(Entries(parts), i, k) {
        if 0 <= i < |parts| {
          assert Entry(parts[i]).None?;
        }
      }
    }
    assert ParseResult(text).Keys == {};
  }

  lemma NoColonParts(parts: seq<string>, text: string)
    requires ':' !in text && parts == Parts(text)
    ensures forall i :: 0 <= i < |parts| ==> ':' !in parts[i]
  {
    var tr := Trim(text);
    var k :| OccursAt(text, tr, k);
    assert ':' !in tr;
    var t := StripTrailing(StripLeading(tr, '{'), '}');
    assert ':' !in t;
    if ',' in t {
      SplitAllKeeps(t, ',', ':');
    }
  }

  lemma {:induction false} SplitAllKeeps(s: string, c: char, d: char)
    requires d !in s
    ensures forall i :: 0 <= i < |SplitAll(s, c)| ==> d !in SplitAll(s, c)[i]
  {
    if c in s {
      var i := FirstIndex(s, c);
      SplitAllKeeps(s[i + 1..], c, d);
    }
  }

  // --------------------------------------------------------------- round trip

  /** The text `{"k1":"v1","k2":"v2",...}` for the given pairs, in the shape the
      control protocol sends. */
  function Render(pairs: seq<(string, string)>): string {
    "{" + Join(Items(pairs)) + "}"
  }

  function Quote(x: string): string {
    "\"" + x + "\""
  }

  function Item(kv: (string, string)): string {
    Quote(kv.0) + ":" + Quote(kv.1)
  }

  function Items(pairs: seq<(string, string)>): (r: seq<string>)
    ensures |r| == |pairs|
    ensures forall i :: 0 <= i < |r| ==> r[i] == Item(pairs[i])
  {
    if pairs == [] then [] else [Item(pairs[0])] + Items(pairs[1..])
  }

  function Join(items: seq<string>): string {
    if items == [] then ""
    else if |items| == 1 then items[0]
    else items[0] + "," + Join(items[1..])
  }

  /** The map `HashMap.put` builds from the pairs in order: later keys overwrite. */
  function MapOf(pairs: seq<(string, string)>, m: map<string, string>): map<string, string> {
    if pairs == [] then m else MapOf(pairs[1..], m[pairs[0].0 := pairs[0].1])
  }

  predicate Renderable(pairs: seq<(string, string)>) {
    forall i :: 0 <= i < |pairs| ==> ',' !in pairs[i].0 && ',' !in pairs[i].1 && ':' !in pairs[i].0
  }

  lemma {:induction false} SplitJoin(items: seq<string>)
    requires |items| >= 1
    requires forall i :: 0 <= i < |items| ==> ',' !in items[i]
    ensures SplitAll(Join(items), ',') == items
  {
    if |items| > 1 {
      var s := Join(items);
      assert s == items[0] + [','] + Join(items[1..]);
      assert FirstIndex(s, ',') == |items[0]| by {
        FirstIndexAt(s, ',', |items[0]|);
      }
      assert s[..|items[0]|] == items[0];
      assert s[|items[0]| + 1..] == Join(items[1..]);
      SplitJoin(items[1..]);
      assert SplitAll(s, ',') == [items[0]] + items[1..];
    }
  }

  lemma FirstIndexAt(s: string, c: char, i: nat)
    requires i < |s| && s[i] == c && c !in s[..i]
    ensures FirstIndex(s, c) == i
  {
  }

  lemma CommaInJoinIffMany(items: seq<string>)
    requires |items| >= 1
    requires forall i :: 0 <= i < |items| ==> ',' !in items[i]
    ensures ',' in Join(items) <==> |items| > 1
  {
    if |items| > 1 {
      assert Join(items)[|items[0]|] == ',';
    }
  }

  lemma Unquote(x: string)
    ensures StripQuotes(Trim(Quote(x))) == x
  {
    QuoteTrimmed(x);
    QuoteStripped(x);
  }

  lemma QuoteTrimmed(x: string)
    ensures Trim(Quote(x)) == Quote(x)
  {
    var q := Quote(x);
    assert q[0] == '"' && q[|q| - 1] == '"';
  }

  lemma QuoteStripped(x: string)
    ensures StripQuotes(Quote(x)) == x
  {
    var q := Quote(x);
    var a := StripLeading(q, '"');
    assert a == q[1..] == x + "\"";
    assert a[|a| - 1] == '"';
    assert a[..|a| - 1] == x;
  }

  lemma ItemEntry(kv: (string, string))
    requires ':' !in kv.0
    ensures Entry(Item(kv)) == Some(kv)
  {
    var p := Item(kv);
    var qk, qv := Quote(kv.0), Quote(kv.1);
    assert ':' !in qk;
    assert p == qk + [':'] + qv;
    assert SplitFirst(p, ':') == Some((qk, qv)) by {
      FirstIndexAt(p, ':', |qk|);
      assert p[..|qk|] == qk;
      assert p[|qk| + 1..] == qv;
    }
    Unquote(kv.0);
    Unquote(kv.1);
  }

  lemma {:induction false} ApplyPairs(pairs: seq<(string, string)>, m: map<string, string>)
    ensures Apply(seq(|pairs|, i requires 0 <= i < |pairs| => Some(pairs[i])), m) == MapOf(pairs, m)
  {
    if pairs != [] {
      var es := seq(|pairs|, i requires 0 <= i < |pairs| => Some(pairs[i]));
      assert es[1..] == seq(|pairs| - 1, i requires 0 <= i < |pairs| - 1 => Some(pairs[1..][i]));
      ApplyPairs(pairs[1..], m[pairs[0].0 := pairs[0].1]);
    }
  }

  lemma EntriesOfItems(pairs: seq<(string, string)>)
    requires Renderable(pairs)
    ensures Entries(Items(pairs)) == seq(|pairs|, i requires 0 <= i < |pairs| => Some(pairs[i]))
  {
    forall i | 0 <= i < |pairs| ensures Entry(Items(pairs)[i]) == Some(pairs[i]) {
      ItemEntry(pairs[i]);
    }
  }

  /** Trimming, `{` and `}` removal undo the braces around a body. */
  lemma PartsOfBraced(body: string)
    ensures Parts("{" + body + "}") == Split(body, ',')
  {
    var text := "{" + body + "}";
    assert text[0] == '{' && text[|text| - 1] == '}';
    assert Trim(text) == text;
    assert StripLeading(text, '{') == body + "}";
    assert (body + "}")[..|body|] == body;
  }

  /** Round trip: parsing the rendering of pairs without ',' and without ':' in the
      keys yields exactly those pairs, later keys winning. */
  lemma RenderRoundTrip(pairs: seq<(string, string)>)
    requires Renderable(pairs)
    ensures ParseResult(Render(pairs)) == MapOf(pairs, map[])
  {
    RenderParts(pairs);
    if pairs == [] {
      EmptyParses();
    } else {
      EntriesOfItems(pairs);
      ApplyPairs(pairs, map[]);
    }
  }

  /** The single empty part of "{}" contributes nothing. */
  lemma EmptyParses()
    ensures Apply(Entries([""]), map[]) == map[]
  {
    assert Entry("") == None;
    var none: seq<Option<(string, string)>> := [None];
    assert Entries([""]) == none;
    assert Apply(none, map[]) == Apply(none[1..], map[]);
  }

  lemma ItemNoComma(kv: (string, string))
    requires ',' !in kv.0 && ',' !in kv.1
    ensures ',' !in Item(kv)
  {
  }

  lemma RenderParts(pairs: seq<(string, string)>)
    requires Renderable(pairs)
    ensures pairs == [] ==> Parts(Render(pairs)) == [""]
    ensures pairs != [] ==> Parts(Render(pairs)) == Items(pairs)
  {
    var items := Items(pairs);
    var body := Join(items);
    PartsOfBraced(body);
    if pairs != [] {
      forall i | 0 <= i < |items| ensures ',' !in items[i] {
        ItemNoComma(pairs[i]);
      }
      CommaInJoinIffMany(items);
      if |items| > 1 {
        SplitJoin(items);
        assert items[|items| - 1] != [];
        assert DropTrailingEmpty(items) == items;
      } else {
        assert body == items[0];
      }
    }
  }
}
