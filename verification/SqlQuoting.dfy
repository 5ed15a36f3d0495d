/** The string literals of the generated SQL, and how the database reads them back. */
module SqlQuoting {
  import opened Wrappers

  /** value.replace("'", "''") */
  function Doubled(value: string): string
  {
    if value == [] then [] else (if value[0] == '\'' then "''" else [value[0]]) + Doubled(value[1..])
  }

  function SqlStr(value: string): string
  {
    "'" + Doubled(value) + "'"
  }

  /** A quoted literal of standard SQL: its value, and the text behind it. */
  function ReadLiteral(text: string): Option<(string, string)>
  {
    if text != [] && text[0] == '\'' then ReadBody(text[1..]) else None
  }

  /** Up to the first quote that is not doubled. */
  function ReadBody(text: string): Option<(string, string)>
  {
    if text == [] then None
    else if text[0] != '\'' then Put(text[0], ReadBody(text[1..]))
    else if |text| > 1 && text[1] == '\'' then Put('\'', ReadBody(text[2..]))
    else Some(("", text[1..]))
  }

  function Put(c: char, r: Option<(string, string)>): Option<(string, string)>
  {
    if r.None? then None else Some(([c] + r.value.0, r.value.1))
  }

  /** What may follow a literal: anything but a further quote. */
  predicate Ends(rest: string)
  {
    rest == [] || rest[0] != '\''
  }

  lemma {:induction false} ReadBodyOfDoubled(value: string, rest: string)
    requires Ends(rest)
    ensures ReadBody(Doubled(value) + "'" + rest) == Some((value, rest))
  {
    var text := Doubled(value) + "'" + rest;
    if value == [] {
      assert text == ['\''] + rest;
      assert text[1..] == rest;
    } else {
      var tail := Doubled(value[1..]) + "'" + rest;
      ReadBodyOfDoubled(value[1..], rest);
      assert [value[0]] + value[1..] == value;
      if value[0] == '\'' {
        assert text == "''" + tail;
        assert text[2..] == tail;
      } else {
        assert text == [value[0]] + tail;
        assert text[1..] == tail;
      }
    }
  }

  /** Whatever a catalog text contains, the database reads exactly that text, and the statement goes on behind it. */
  lemma QuotingRoundTrip(value: string, rest: string)
    requires Ends(rest)
    ensures ReadLiteral(SqlStr(value) + rest) == Some((value, rest))
  {
    ReadBodyOfDoubled(value, rest);
    assert (SqlStr(value) + rest)[1..] == Doubled(value) + "'" + rest;
  }

  // ── Text arrays ───────────────────────────────────────────────────────────

  /** ", ".join over the quoted elements */
  function Elements(tags: seq<string>): string
  {
    if tags == [] then [] else if |tags| == 1 then SqlStr(tags[0]) else SqlStr(tags[0]) + ", " + Elements(tags[1..])
  }

  function SqlTextArray(tags: seq<string>): string
  {
    "ARRAY[" + Elements(tags) + "]::text[]"
  }

  function ReadElements(text: string): Option<(seq<string>, string)>
    decreases |text|
  {
    var r := ReadLiteral(text);
    if r.None? then Some(([], text))
    else if 2 <= |r.value.1| < |text| && r.value.1[..2] == ", " then
      var more := ReadElements(r.value.1[2..]);
      if more.None? then None else Some(([r.value.0] + more.value.0, more.value.1))
    else Some(([r.value.0], r.value.1))
  }

  lemma ReadNext(value: string, more: string, tags: seq<string>, rest: string)
    requires more != [] && ReadElements(more) == Some((tags, rest))
    ensures ReadElements(SqlStr(value) + (", " + more)) == Some(([value] + tags, rest))
  {
    var tail := ", " + more;
    QuotingRoundTrip(value, tail);
    assert tail[..2] == ", " && tail[2..] == more;
    assert |SqlStr(value)| >= 2;
  }

  lemma ReadLast(value: string, rest: string)
    requires rest != [] && rest[0] == ']'
    ensures ReadElements(SqlStr(value) + rest) == Some(([value], rest))
  {
    QuotingRoundTrip(value, rest);
    assert |rest| >= 2 ==> rest[..2][0] != ", "[0];
  }

  lemma ElementsNext(tags: seq<string>, rest: string)
    requires |tags| > 1
    ensures Elements(tags) + rest == SqlStr(tags[0]) + (", " + (Elements(tags[1..]) + rest))
    ensures [tags[0]] + tags[1..] == tags
  {
    Regroup(SqlStr(tags[0]), ", ", Elements(tags[1..]), rest);
  }

  lemma Regroup(a: string, b: string, c: string, d: string)
    ensures a + b + c + d == a + (b + (c + d))
  {
  }

  lemma {:induction false} ReadElementsBack(tags: seq<string>, rest: string)
    requires rest != [] && rest[0] == ']'
    ensures ReadElements(Elements(tags) + rest) == Some((tags, rest))
  {
    if tags == [] {
      assert Elements(tags) + rest == rest;
    } else if |tags| == 1 {
      ReadLast(tags[0], rest);
      assert [tags[0]] == tags;
    } else {
      ReadElementsBack(tags[1..], rest);
      ElementsNext(tags, rest);
      ReadNext(tags[0], Elements(tags[1..]) + rest, tags[1..], rest);
    }
  }

  function ReadTextArray(text: string): Option<seq<string>>
  {
    if |text| < 6 || text[..6] != "ARRAY[" then None
    else
      var r := ReadElements(text[6..]);
      if r.Some? && r.value.1 == "]::text[]" then Some(r.value.0) else None
  }

  /** A list of tags comes back element by element. */
  lemma ArrayRoundTrip(tags: seq<string>)
    ensures ReadTextArray(SqlTextArray(tags)) == Some(tags)
  {
    var text := SqlTextArray(tags);
    assert text[..6] == "ARRAY[";
    assert text[6..] == Elements(tags) + "]::text[]";
    ReadElementsBack(tags, "]::text[]");
  }
}
