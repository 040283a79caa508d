/** `quote_identifier` (src/gpt_request.py): SQLite identifier quoting. */
module Quoting {
  import opened Wrappers

  /** Number of occurrences of `c` in `s`. */
  function Count(c: char, s: string): nat
  {
    if s == [] then 0 else (if s[0] == c then 1 else 0) + Count(c, s[1..])
  }

  /** `s` with every double quote doubled. */
  function DoubleQuotes(s: string): string
  {
    if s == [] then [] else (if s[0] == '"' then "\"\"" else [s[0]]) + DoubleQuotes(s[1..])
  }

  /** `quote_identifier`: the name between double quotes, its own double quotes doubled. */
  function QuoteIdentifier(name: string): (q: string)
    ensures |q| >= 2 && q[0] == '"' && q[|q| - 1] == '"'
  {
    "\"" + DoubleQuotes(name) + "\""
  }

  /** Reads the body of a quoted identifier back: `""` stands for one `"`, and a lone `"`
      is malformed. */
  function UndoubleQuotes(s: string): Option<string>
  {
    if s == [] then Some([])
    else if s[0] != '"' then
      match UndoubleQuotes(s[1..])
      case Some(rest) => Some([s[0]] + rest)
      case None => None
    else if |s| >= 2 && s[1] == '"' then
      match UndoubleQuotes(s[2..])
      case Some(rest) => Some("\"" + rest)
      case None => None
    else None
  }

  /** The inverse of `QuoteIdentifier`: drop the outer quotes and un-double the inner ones. */
  function UnquoteIdentifier(q: string): Option<string>
  {
    if |q| >= 2 && q[0] == '"' && q[|q| - 1] == '"' then UndoubleQuotes(q[1..|q| - 1]) else None
  }

  lemma {:induction false} DoubleQuotesLength(s: string)
    ensures |DoubleQuotes(s)| == |s| + Count('"', s)
  {
    if s != [] {
      DoubleQuotesLength(s[1..]);
    }
  }

  lemma {:induction false} UndoubleDouble(s: string)
    ensures UndoubleQuotes(DoubleQuotes(s)) == Some(s)
  {
    if s != [] {
      var d := DoubleQuotes(s);
      UndoubleDouble(s[1..]);
      if s[0] == '"' {
        assert d[2..] == DoubleQuotes(s[1..]);
      } else {
        assert d[1..] == DoubleQuotes(s[1..]);
      }
      assert s == [s[0]] + s[1..];
    }
  }

  lemma {:induction false} DoubleUndouble(s: string, n: string)
    requires UndoubleQuotes(s) == Some(n)
    ensures DoubleQuotes(n) == s
  {
    if s != [] {
      if s[0] != '"' {
        var rest := UndoubleQuotes(s[1..]).value;
        DoubleUndouble(s[1..], rest);
        assert n == [s[0]] + rest && n[1..] == rest;
        assert s == [s[0]] + s[1..];
      } else {
        var rest := UndoubleQuotes(s[2..]).value;
        DoubleUndouble(s[2..], rest);
        assert n == "\"" + rest && n[1..] == rest;
        assert s == "\"\"" + s[2..];
      }
    }
  }

  /** The quoted form is two characters longer than the name plus one per embedded quote. */
  lemma QuoteIdentifierLength(name: string)
    ensures |QuoteIdentifier(name)| == |name| + 2 + Count('"', name)
  {
    DoubleQuotesLength(name);
  }

  /** Quoting is undone exactly by unquoting ... */
  lemma UnquoteQuote(name: string)
    ensures UnquoteIdentifier(QuoteIdentifier(name)) == Some(name)
  {
    var q := QuoteIdentifier(name);
    assert q[1..|q| - 1] == DoubleQuotes(name);
    UndoubleDouble(name);
  }

  /** ... and every string that unquotes to a name is that name's quoted form, so two
      different names never share a quoted form. */
  lemma QuoteUnquote(q: string, name: string)
    requires UnquoteIdentifier(q) == Some(name)
    ensures QuoteIdentifier(name) == q
  {
    DoubleUndouble(q[1..|q| - 1], name);
    assert q == [q[0]] + q[1..|q| - 1] + [q[|q| - 1]];
  }
}
