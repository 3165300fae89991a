/** The orchestrator's escape helper for error text spliced into an UPDATE
    statement. Inside an SQL character-string literal a quote is written as two
    quotes (ISO/IEC 9075-2, subclause 5.3, <literal>); the helper doubles every
    quote and then keeps the first 2000 characters. A NULL or empty input gives
    the empty string. */
module SqlLiteral {
  import opened Common

  const Quote: char := '\''
  const MaxErrorLength: nat := 2000

  function QuoteCount(s: string): nat
  {
    if s == [] then 0 else (if s[0] == Quote then 1 else 0) + QuoteCount(s[1..])
  }

  /** str.replace("'", "''"): every quote written twice, nothing else changed. */
  function DoubleQuotes(s: string): (r: string)
    ensures |r| == |s| + QuoteCount(s)
    ensures Quote !in s ==> r == s
  {
    if s == [] then []
    else if s[0] == Quote then [Quote, Quote] + DoubleQuotes(s[1..])
    else [s[0]] + DoubleQuotes(s[1..])
  }

  /** Python's `s or ""`: NULL and the empty string both become "". */
  function OrEmpty(s: Option<string>): string
  {
    match s
    case None => ""
    case Some(t) => t
  }

  /** `(s or "").replace("'", "''")[:2000]`. */
  function EscapeSqlLiteral(s: Option<string>): (r: string)
    ensures |r| <= MaxErrorLength
    ensures r <= DoubleQuotes(OrEmpty(s))
    ensures |r| == if |OrEmpty(s)| + QuoteCount(OrEmpty(s)) <= MaxErrorLength
                   then |OrEmpty(s)| + QuoteCount(OrEmpty(s)) else MaxErrorLength
    ensures (s == None || s == Some("")) ==> r == ""
  {
    var d := DoubleQuotes(OrEmpty(s));
    if |d| <= MaxErrorLength then d else d[..MaxErrorLength]
  }

  /** The value an SQL literal body denotes: a pair of quotes stands for one
      quote; a quote without its partner leaves the literal unterminated. */
  function Unquote(body: string): (v: Option<string>)
    ensures v.Some? ==> |v.value| <= |body|
  {
    if body == [] then Some([])
    else if body[0] == Quote then
      if |body| >= 2 && body[1] == Quote then
        match Unquote(body[2..])
        case None => None
        case Some(rest) => Some([Quote] + rest)
      else None
    else
      match Unquote(body[1..])
      case None => None
      case Some(rest) => Some([body[0]] + rest)
  }

  /** Doubling the quotes is undone by reading the literal back. */
  lemma {:induction false} UnquoteDoubleQuotes(s: string)
    ensures Unquote(DoubleQuotes(s)) == Some(s)
  {
    if s != [] {
      UnquoteDoubleQuotes(s[1..]);
      if s[0] == Quote {
        assert DoubleQuotes(s)[2..] == DoubleQuotes(s[1..]);
      } else {
        assert DoubleQuotes(s)[1..] == DoubleQuotes(s[1..]);
      }
      assert s == [s[0]] + s[1..];
    }
  }

  /** A message short enough not to be cut is stored exactly as it was. */
  lemma EscapeRoundTrip(s: string)
    requires |s| + QuoteCount(s) <= MaxErrorLength
    ensures Unquote(EscapeSqlLiteral(Some(s))) == Some(s)
  {
    UnquoteDoubleQuotes(s);
  }

  /** A message without quotes and within the cap is left unchanged, and it
      reads back as itself. */
  lemma EscapeUnchanged(s: string)
    requires Quote !in s && |s| <= MaxErrorLength
    ensures EscapeSqlLiteral(Some(s)) == s
    ensures Unquote(s) == Some(s)
  {
    UnquoteDoubleQuotes(s);
  }

  /** A character other than a quote stands for itself. */
  lemma UnquoteOther(c: char, t: string)
    requires c != Quote
    ensures Unquote([c] + t) == if Unquote(t).Some? then Some([c] + Unquote(t).value) else None
  {
    assert ([c] + t)[1..] == t;
  }

  /** A pair of quotes stands for one quote. */
  lemma UnquotePair(t: string)
    ensures Unquote([Quote, Quote] + t) == if Unquote(t).Some? then Some([Quote] + Unquote(t).value) else None
  {
    assert ([Quote, Quote] + t)[2..] == t;
  }

  lemma DoubleQuotesHead(s: string)
    requires s != []
    ensures DoubleQuotes(s) == (if s[0] == Quote then [Quote, Quote] else [s[0]]) + DoubleQuotes(s[1..])
  {
  }

  lemma TakeAppend(a: string, b: string, n: nat)
    requires |a| <= n <= |a| + |b|
    ensures (a + b)[..n] == a + b[..n - |a|]
  {
  }

  lemma PrefixCons(c: char, p: string, t: string)
    requires p <= t
    ensures [c] + p <= [c] + t
  {
  }

  /** Whenever the (possibly cut) literal reads back at all, it reads back as
      a prefix of the original message: the cut never invents text. */
  lemma {:induction false} UnquotePrefix(s: string, n: nat)
    requires n <= |DoubleQuotes(s)|
    requires Unquote(DoubleQuotes(s)[..n]).Some?
    ensures Unquote(DoubleQuotes(s)[..n]).value <= s
  {
    var d := DoubleQuotes(s);
    if n > 0 {
      assert s != [];
      var rest := DoubleQuotes(s[1..]);
      var head := if s[0] == Quote then [Quote, Quote] else [s[0]];
      DoubleQuotesHead(s);
      assert n >= |head|;
      TakeAppend(head, rest, n);
      var tail := rest[..n - |head|];
      if s[0] == Quote {
        UnquotePair(tail);
      } else {
        UnquoteOther(s[0], tail);
      }
      UnquotePrefix(s[1..], n - |head|);
      PrefixCons(s[0], Unquote(tail).value, s[1..]);
      assert s == [s[0]] + s[1..];
    }
  }

  lemma EscapeReadsBackAsPrefix(s: string)
    requires Unquote(EscapeSqlLiteral(Some(s))).Some?
    ensures Unquote(EscapeSqlLiteral(Some(s))).value <= s
  {
    var d := DoubleQuotes(s);
    if |d| <= MaxErrorLength {
      assert d[..|d|] == d;
      UnquotePrefix(s, |d|);
    } else {
      UnquotePrefix(s, MaxErrorLength);
    }
  }

  lemma {:induction false} DoubleQuotesAppend(a: string, b: string)
    ensures DoubleQuotes(a + b) == DoubleQuotes(a) + DoubleQuotes(b)
  {
    if a == [] {
      assert a + b == b;
    } else {
      assert (a + b)[1..] == a[1..] + b;
      DoubleQuotesAppend(a[1..], b);
    }
  }

  lemma {:induction false} UnquoteLoneQuoteAtEnd(t: string)
    requires Quote !in t
    ensures Unquote(t + [Quote]) == None
  {
    if t != [] {
      assert (t + [Quote])[1..] == t[1..] + [Quote];
      UnquoteLoneQuoteAtEnd(t[1..]);
    }
  }

  /** The cut can fall between the two quotes of a pair: 1999 letters followed
      by one quote escape to 1999 letters and a lone quote, which does not
      read back as a literal. So a stored literal is not always well formed. */
  lemma EscapeCanSplitQuotePair()
    ensures exists s :: Unquote(EscapeSqlLiteral(Some(s))) == None
  {
    var t := seq(MaxErrorLength - 1, _ => 'a');
    var s := t + [Quote];
    assert Quote !in t;
    DoubleQuotesAppend(t, [Quote]);
    assert DoubleQuotes([Quote]) == [Quote, Quote];
    assert DoubleQuotes(s) == t + [Quote, Quote];
    assert EscapeSqlLiteral(Some(s)) == t + [Quote];
    UnquoteLoneQuoteAtEnd(t);
  }
}
