/** Queries as the handlers hand them to `db.query`: the SQL text and the values bound to its
    `?` placeholders, in order. */
module Sql {
  import opened JsText
  import opened JsValues

  /** A query with its parameters; `None` is a parameter that is `undefined`. */
  datatype Query = Query(sql: string, params: seq<Option<Json>>)

  /** The number of `?` in a text. */
  function Marks(s: string): nat
  {
    Count(s, {'?'})
  }

  /** The `?` of every part of a list, added up. */
  function MarksIn(parts: seq<string>): nat
  {
    if parts == [] then 0 else Marks(parts[0]) + MarksIn(parts[1..])
  }

  /** The `?` of a joined list are those of its parts plus those of the separators between them. */
  lemma {:induction false} MarksOfJoin(parts: seq<string>, sep: string)
    requires |parts| > 0
    ensures Marks(Join(parts, sep)) == MarksIn(parts) + (|parts| - 1) * Marks(sep)
  {
    if |parts| > 1 {
      MarksOfJoin(parts[1..], sep);
      CountAppend(parts[0], sep, {'?'});
      CountAppend(parts[0] + sep, Join(parts[1..], sep), {'?'});
    }
  }

  /** The `?` of texts written one after the other add up. */
  lemma MarksOfConcat(a: string, b: string)
    ensures Marks(a + b) == Marks(a) + Marks(b)
  {
    CountAppend(a, b, {'?'});
  }

  lemma MarksOfConcat3(a: string, b: string, c: string)
    ensures Marks(a + b + c) == Marks(a) + Marks(b) + Marks(c)
  {
    MarksOfConcat(a, b);
    MarksOfConcat(a + b, c);
  }

  /** A text without `?` has no placeholder. */
  lemma NoMarks(s: string)
    requires '?' !in s
    ensures Marks(s) == 0
  {
    CountZero(s, {'?'});
  }

  /** Parts joined with `, ` have the `?` of the parts and no more. */
  lemma MarksOfCommaJoin(parts: seq<string>)
    requires |parts| > 0
    ensures Marks(Join(parts, ", ")) == MarksIn(parts)
  {
    assert Marks(", ") == 0 by {
      NoMarks(", ");
    }
    MarksOfJoin(parts, ", ");
  }
}
