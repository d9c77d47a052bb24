/**
 * The socket-type parser (libtenzir/include/tenzir/concept/parseable/detail/posix.hpp):
 * a choice of three keyword literals, tried in order, each yielding its
 * socket type. A literal matches a prefix of the input and consumes it; the
 * rest of the input is left for whoever parses next.
 */
module SocketTypeParser {
  import opened Wrappers

  datatype SocketType = Datagram | Stream | Fd

  /** A successful parse: the socket type and the input left over. */
  datatype Parsed = Parsed(value: SocketType, rest: string)

  /** The keyword each socket type is spelled as. */
  function Keyword(t: SocketType): string
  {
    match t
    case Datagram => "datagram"
    case Stream => "stream"
    case Fd => "fd"
  }

  /** One alternative of the choice: the literal for `t`, or failure. */
  function Alternative(t: SocketType, input: string): (r: Option<Parsed>)
    ensures r.Some? <==> Keyword(t) <= input
    ensures r.Some? ==> r.value.value == t && Keyword(t) + r.value.rest == input
  {
    var k := Keyword(t);
    if k <= input then Some(Parsed(t, input[|k|..])) else None
  }

  /** A choice over the alternatives `alts`, tried in order. */
  function Choice(alts: seq<SocketType>, input: string): (r: Option<Parsed>)
    ensures r.Some? ==> r.value.value in alts && Keyword(r.value.value) + r.value.rest == input
  {
    if alts == [] then None
    else
      match Alternative(alts[0], input)
      case Some(p) => Some(p)
      case None => Choice(alts[1..], input)
  }

  /** `socket_type_parser::parse`, the parser registered for socket types:
      "datagram", then "stream", then "fd". */
  function Parse(input: string): (r: Option<Parsed>)
    ensures r.Some? <==> exists t :: Keyword(t) <= input
    ensures r.Some? ==> Keyword(r.value.value) + r.value.rest == input
  {
    AllKeywordsOffered(input);
    Choice([Datagram, Stream, Fd], input)
  }

  /** The choice of all three keywords succeeds exactly when one of them
      begins the input. */
  lemma AllKeywordsOffered(input: string)
    ensures Choice([Datagram, Stream, Fd], input).Some? <==> exists t :: Keyword(t) <= input
  {
    if t :| Keyword(t) <= input {
      ChoiceFindsKeyword([Datagram, Stream, Fd], t, input);
    }
  }

  /** No keyword is a prefix of another. */
  lemma PrefixFree(t: SocketType, u: SocketType)
    requires t != u
    ensures !(Keyword(t) <= Keyword(u))
  {
    match t {
      case Datagram =>
        assert Keyword(t)[0] == 'd' && |Keyword(t)| > |Keyword(u)|;
      case Stream =>
        assert Keyword(t)[0] == 's' && Keyword(u)[0] != 's';
      case Fd =>
        assert Keyword(t)[1] == 'd' && Keyword(u)[1] != 'd';
    }
  }

  /** Two keywords that both begin the same input are the same keyword. */
  lemma AtMostOneMatches(t: SocketType, u: SocketType, input: string)
    requires Keyword(t) <= input && Keyword(u) <= input
    ensures t == u
  {
    if t != u {
      if |Keyword(t)| <= |Keyword(u)| {
        assert Keyword(t) <= Keyword(u);
        PrefixFree(t, u);
      } else {
        assert Keyword(u) <= Keyword(t);
        PrefixFree(u, t);
      }
    }
  }

  /** A choice that offers the keyword beginning the input parses it, and
      one that offers no keyword beginning the input fails; which other
      alternatives it offers, and in what order, plays no part. */
  lemma {:induction false} ChoiceFindsKeyword(alts: seq<SocketType>, t: SocketType, input: string)
    requires Keyword(t) <= input
    ensures Choice(alts, input) == if t in alts then Some(Parsed(t, input[|Keyword(t)|..])) else None
  {
    if alts != [] {
      if Keyword(alts[0]) <= input {
        AtMostOneMatches(alts[0], t, input);
      } else {
        assert t in alts ==> t in alts[1..];
        ChoiceFindsKeyword(alts[1..], t, input);
      }
    }
  }

  lemma {:induction false} ChoiceFailsWithoutKeyword(alts: seq<SocketType>, input: string)
    requires forall t :: !(Keyword(t) <= input)
    ensures Choice(alts, input) == None
  {
    if alts != [] {
      assert !(Keyword(alts[0]) <= input);
      ChoiceFailsWithoutKeyword(alts[1..], input);
    }
  }

  /** Each keyword parses to its socket type, leaving the rest. */
  lemma KeywordParses(t: SocketType, rest: string)
    ensures Parse(Keyword(t) + rest) == Some(Parsed(t, rest))
  {
    var input := Keyword(t) + rest;
    assert Keyword(t) <= input;
    assert input[|Keyword(t)|..] == rest;
    ChoiceFindsKeyword([Datagram, Stream, Fd], t, input);
  }

  /** Input that begins with none of the keywords does not parse. */
  lemma NoKeywordFails(input: string)
    requires forall t :: !(Keyword(t) <= input)
    ensures Parse(input) == None
  {
    ChoiceFailsWithoutKeyword([Datagram, Stream, Fd], input);
  }

  /** The order of the alternatives does not change the result. */
  lemma OrderIrrelevant(alts: seq<SocketType>, input: string)
    requires Datagram in alts && Stream in alts && Fd in alts
    ensures Choice(alts, input) == Parse(input)
  {
    if t :| Keyword(t) <= input {
      ChoiceFindsKeyword(alts, t, input);
      ChoiceFindsKeyword([Datagram, Stream, Fd], t, input);
    } else {
      ChoiceFailsWithoutKeyword(alts, input);
      ChoiceFailsWithoutKeyword([Datagram, Stream, Fd], input);
    }
  }
}
