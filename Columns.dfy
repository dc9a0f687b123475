/**
 * A column descriptor (`Column`): fixed at construction, it knows its SQL
 * declaration, its '$'-separated path into the remote record, and an
 * optional parser for remote values.
 */
module Columns {
  import opened Common
  import Affinity
  import opened DataEntries

  /** A `DataParser`: turns the text of a remote JSON element into a stored value. */
  datatype Parser = Parser(parse: string -> Value)

  datatype Column = Column(
    colType: int,
    affinity: int,
    constraint: string,
    storage: int,
    name: string,
    declaredName: string,
    delegate: string,
    defaultValue: string,
    parser: Option<Parser>,
    isUID: bool)

  /** `path`: the name split on '$', trailing empty segments dropped (`String.split`). */
  function Path(c: Column): seq<string> {
    JavaSplit(c.name, '$')
  }

  /** `hasPath`: the name has more than one segment. */
  predicate HasPath(c: Column) {
    |Path(c)| > 1
  }

  /** A '$' followed, somewhere later, by a character other than '$'. */
  predicate SeparatedLater(s: string, ch: char) {
    exists i, j | 0 <= i < j < |s| :: s[i] == ch && s[j] != ch
  }

  /** The path pieces carry no '$' and, rejoined, give back the name up to trailing '$'s. */
  lemma PathPieces(c: Column)
    ensures forall k | 0 <= k < |Path(c)| :: '$' !in Path(c)[k]
    ensures exists n: nat :: Join(Path(c), "$") + Repeat("$", n) == c.name
  {
    JavaSplitPieces(c.name, '$');
  }

  /** A column has a path exactly when its name has a '$' with something other than '$' after it. */
  lemma HasPathIff(c: Column)
    ensures HasPath(c) <==> SeparatedLater(c.name, '$')
  {
    var s := c.name;
    if '$' in s {
      var all := SplitAll(s, '$');
      var r := DropTrailingEmpty(all);
      assert Path(c) == r;
      LaterPieces(s, '$');
      if |r| > 1 {
        assert all[|r| - 1] == r[|r| - 1];
      }
    } else {
      assert Path(c) == [s];
      assert forall i | 0 <= i < |s| :: s[i] != '$';
    }
  }

  /** Some piece after the first is non-empty iff a separator has a non-separator after it. */
  predicate LaterPiece(s: string, ch: char) {
    exists k | 1 <= k < |SplitAll(s, ch)| :: SplitAll(s, ch)[k] != ""
  }

  lemma {:induction false} LaterPieces(s: string, ch: char)
    ensures LaterPiece(s, ch) <==> SeparatedLater(s, ch)
  {
    if |s| > 0 {
      LaterPieces(s[1..], ch);
      if s[0] == ch {
        LaterPiecesAfterSeparator(s, ch);
      } else {
        LaterPiecesAfterOther(s, ch);
      }
    }
  }

  lemma LaterPiecesAfterSeparator(s: string, ch: char)
    requires |s| > 0 && s[0] == ch
    ensures LaterPiece(s, ch) <==> SeparatedLater(s, ch)
  {
    var t := s[1..];
    var rest := SplitAll(t, ch);
    assert SplitAll(s, ch) == [""] + rest;
    AnyPiece(t, ch);
    if exists j | 0 <= j < |t| :: t[j] != ch {
      var j :| 0 <= j < |t| && t[j] != ch;
      assert s[0] == ch && s[j + 1] != ch;
    }
    if SeparatedLater(s, ch) {
      var i, j :| 0 <= i < j < |s| && s[i] == ch && s[j] != ch;
      assert t[j - 1] != ch;
    }
    if exists k | 0 <= k < |rest| :: rest[k] != "" {
      var k :| 0 <= k < |rest| && rest[k] != "";
      assert SplitAll(s, ch)[k + 1] == rest[k];
    }
    if LaterPiece(s, ch) {
      var k :| 1 <= k < |SplitAll(s, ch)| && SplitAll(s, ch)[k] != "";
      assert rest[k - 1] != "";
    }
  }

  lemma LaterPiecesAfterOther(s: string, ch: char)
    requires |s| > 0 && s[0] != ch
    requires LaterPiece(s[1..], ch) <==> SeparatedLater(s[1..], ch)
    ensures LaterPiece(s, ch) <==> SeparatedLater(s, ch)
  {
    var t := s[1..];
    var rest := SplitAll(t, ch);
    assert SplitAll(s, ch) == [[s[0]] + rest[0]] + rest[1..];
    if LaterPiece(s, ch) {
      var k :| 1 <= k < |SplitAll(s, ch)| && SplitAll(s, ch)[k] != "";
      assert rest[k] != "";
    }
    if LaterPiece(t, ch) {
      var k :| 1 <= k < |rest| && rest[k] != "";
      assert SplitAll(s, ch)[k] != "";
    }
    if SeparatedLater(s, ch) {
      var i, j :| 0 <= i < j < |s| && s[i] == ch && s[j] != ch;
      assert t[i - 1] == ch && t[j - 1] != ch;
    }
    if SeparatedLater(t, ch) {
      var i, j :| 0 <= i < j < |t| && t[i] == ch && t[j] != ch;
      assert s[i + 1] == ch && s[j + 1] != ch;
    }
  }

  /** Some piece is non-empty iff the string has a character other than the separator. */
  lemma {:induction false} AnyPiece(s: string, ch: char)
    ensures (exists k | 0 <= k < |SplitAll(s, ch)| :: SplitAll(s, ch)[k] != "") <==> exists j | 0 <= j < |s| :: s[j] != ch
  {
    if |s| > 0 {
      var t := s[1..];
      var rest := SplitAll(t, ch);
      AnyPiece(t, ch);
      if exists j | 0 <= j < |t| :: t[j] != ch {
        var j :| 0 <= j < |t| && t[j] != ch;
        assert s[j + 1] != ch;
      }
      if exists k | 0 <= k < |rest| :: rest[k] != "" {
        var k :| 0 <= k < |rest| && rest[k] != "";
        if s[0] == ch {
          assert SplitAll(s, ch)[k + 1] == rest[k];
        } else if k > 0 {
          assert SplitAll(s, ch)[k] == rest[k];
        }
      }
      if s[0] != ch {
        assert SplitAll(s, ch)[0] != "";
      } else if exists j | 0 <= j < |s| :: s[j] != ch {
        var j :| 0 <= j < |s| && s[j] != ch;
        assert t[j - 1] != ch;
      }
    }
  }

  /** `parse`: the parser's value, or `IllegalStateException` when the column has none. */
  function Parse(c: Column, json: string): (r: Result<Value>)
    ensures r.Err? <==> c.parser.None?
    ensures r.Err? ==> r.error == IllegalState
    ensures r.Ok? ==> r.value == c.parser.value.parse(json)
  {
    match c.parser
    case None => Err(IllegalState)
    case Some(p) => Ok(p.parse(json))
  }

  /** `hasParser`. */
  predicate HasParser(c: Column) {
    c.parser.Some?
  }

  lemma HasParserIffParses(c: Column, json: string)
    ensures HasParser(c) <==> Parse(c, json).Ok?
  {
  }

  /** `getFullName`: the owning table's name, a dot, the column name. */
  function FullName(table: string, c: Column): (r: string)
    ensures |r| == |table| + 1 + |c.name|
    ensures r[..|table|] == table && r[|table|] == '.' && r[|table| + 1..] == c.name
  {
    table + "." + c.name
  }

  function DefaultClause(c: Column): string {
    if |c.defaultValue| > 0 then " DEFAULT " + c.defaultValue else ""
  }

  function ConstraintClause(c: Column): string {
    if |c.constraint| > 0 then " " + c.constraint else ""
  }

  /**
   * `toString`, the column's fragment of CREATE TABLE: name, a space, the
   * affinity's name, then " DEFAULT d" for a non-empty default and a space
   * and the constraint for a non-empty constraint.
   */
  function Render(c: Column): string {
    c.name + " " + Affinity.AsString(c.affinity) + DefaultClause(c) + ConstraintClause(c)
  }

  lemma RenderShape(c: Column)
    ensures var r := Render(c);
      && |r| >= |c.name| + 1 + |Affinity.AsString(c.affinity)|
      && r[..|c.name| + 1] == c.name + " "
      && r[|c.name| + 1..|c.name| + 1 + |Affinity.AsString(c.affinity)|] == Affinity.AsString(c.affinity)
      && (|r| == |c.name| + 1 + |Affinity.AsString(c.affinity)| <==> |c.defaultValue| == 0 && |c.constraint| == 0)
  {
  }

  /** The text before the first space. */
  function FirstWord(s: string): string {
    if |s| == 0 || s[0] == ' ' then "" else [s[0]] + FirstWord(s[1..])
  }

  lemma {:induction false} FirstWordOf(w: string, rest: string)
    requires ' ' !in w
    ensures FirstWord(w + " " + rest) == w
  {
    if |w| > 0 {
      assert (w + " " + rest)[1..] == w[1..] + " " + rest;
      FirstWordOf(w[1..], rest);
    }
  }

  /** The declaration names its column first: for a name without spaces, the first word is the name. */
  lemma RenderNamesColumn(c: Column)
    requires ' ' !in c.name
    ensures FirstWord(Render(c)) == c.name
  {
    FirstWordOf(c.name, Affinity.AsString(c.affinity) + DefaultClause(c) + ConstraintClause(c));
    assert Render(c) == c.name + " " + (Affinity.AsString(c.affinity) + DefaultClause(c) + ConstraintClause(c));
  }
}
