/**
 * A simplified `application/x-www-form-urlencoded` parser as used by
 * `URLSearchParams` (WHATWG URL Standard, section 5.1): the input is split on
 * `&`, empty pieces are skipped, and each piece is cut at its first `=` into a
 * name and a value. `get` returns the value of the first pair with the name.
 * Percent-decoding and `+`-to-space replacement are not modelled.
 */
module FormUrlEncoded {
  import opened Common

  datatype Param = Param(name: string, value: string)

  /** The position of the first `c` in `s`. */
  function IndexOf(s: string, c: char): (i: nat)
    requires c in s
    ensures i < |s| && s[i] == c && c !in s[..i]
  {
    if s[0] == c then 0
    else
      assert s == [s[0]] + s[1..];
      var i := 1 + IndexOf(s[1..], c);
      assert s[..i] == [s[0]] + s[1..][..i - 1];
      i
  }

  /** `s` cut at every `sep`; always at least one (possibly empty) piece. */
  function Split(s: string, sep: char): (pieces: seq<string>)
    ensures |pieces| >= 1
    decreases |s|
  {
    if sep !in s then [s]
    else
      var i := IndexOf(s, sep);
      [s[..i]] + Split(s[i + 1..], sep)
  }

  /** No piece contains the separator. */
  lemma {:induction false} SplitPiecesLackSeparator(s: string, sep: char)
    ensures forall k :: 0 <= k < |Split(s, sep)| ==> sep !in Split(s, sep)[k]
    decreases |s|
  {
    if sep in s {
      var i := IndexOf(s, sep);
      SplitPiecesLackSeparator(s[i + 1..], sep);
      assert Split(s, sep) == [s[..i]] + Split(s[i + 1..], sep);
    }
  }

  /** The pieces glued back together with `sep` between neighbours. */
  function Join(pieces: seq<string>, sep: char): string
    requires |pieces| >= 1
  {
    if |pieces| == 1 then pieces[0]
    else pieces[0] + [sep] + Join(pieces[1..], sep)
  }

  /** Splitting at a first separator right after a separator-free head. */
  lemma SplitAfterHead(head: string, sep: char, tail: string)
    requires sep !in head
    ensures Split(head + [sep] + tail, sep) == [head] + Split(tail, sep)
  {
    var s := head + [sep] + tail;
    assert s[|head|] == sep;
    var i := IndexOf(s, sep);
    assert i == |head|;
    assert s[..i] == head;
    assert s[i + 1..] == tail;
  }

  /** Joining a piece in front of at least one more puts one separator between them. */
  lemma JoinCons(head: string, rest: seq<string>, sep: char)
    requires |rest| >= 1
    ensures Join([head] + rest, sep) == head + [sep] + Join(rest, sep)
  {
    assert ([head] + rest)[1..] == rest;
  }

  /** Splitting loses nothing: joining the pieces gives the input back. */
  lemma {:induction false} SplitThenJoin(s: string, sep: char)
    ensures Join(Split(s, sep), sep) == s
    decreases |s|
  {
    if sep in s {
      var i := IndexOf(s, sep);
      var head, tail := s[..i], s[i + 1..];
      assert s == head + [sep] + tail;
      SplitAfterHead(head, sep, tail);
      JoinCons(head, Split(tail, sep), sep);
      SplitThenJoin(tail, sep);
    }
  }

  /** Joining pieces free of `sep` and splitting again gives the same pieces. */
  lemma {:induction false} JoinThenSplit(pieces: seq<string>, sep: char)
    requires |pieces| >= 1
    requires forall k :: 0 <= k < |pieces| ==> sep !in pieces[k]
    ensures Split(Join(pieces, sep), sep) == pieces
  {
    if |pieces| > 1 {
      SplitAfterHead(pieces[0], sep, Join(pieces[1..], sep));
      JoinThenSplit(pieces[1..], sep);
      assert pieces == [pieces[0]] + pieces[1..];
    }
  }

  /** One non-empty piece cut at its first `=`; without `=` the value is empty. */
  function ParsePair(piece: string): (p: Param)
    ensures '=' !in p.name
    ensures '=' in piece ==> p.name + "=" + p.value == piece
    ensures '=' !in piece ==> p == Param(piece, "")
  {
    if '=' in piece then
      var i := IndexOf(piece, '=');
      assert piece == piece[..i] + "=" + piece[i + 1..];
      Param(piece[..i], piece[i + 1..])
    else Param(piece, "")
  }

  /** The text of one pair, `name=value`. */
  function PairText(p: Param): string {
    p.name + "=" + p.value
  }

  /** A pair survives printing and parsing when its name holds no `=`. */
  lemma PairRoundTrip(p: Param)
    requires '=' !in p.name
    ensures ParsePair(PairText(p)) == p
  {
    var t := PairText(p);
    var i := IndexOf(t, '=');
    assert t[|p.name|] == '=';
    assert i == |p.name|;
    assert t[..i] == p.name;
    assert t[i + 1..] == p.value;
  }

  function ParsePieces(pieces: seq<string>): (ps: seq<Param>)
    ensures |ps| <= |pieces|
  {
    if |pieces| == 0 then []
    else (if pieces[0] == "" then [] else [ParsePair(pieces[0])]) + ParsePieces(pieces[1..])
  }

  /** The urlencoded parser: the name/value list of `s`, in order. */
  function Parse(s: string): seq<Param> {
    ParsePieces(Split(s, '&'))
  }

  /** `new URLSearchParams(init)`: a leading `?` is dropped before parsing. */
  function SearchParams(init: string): seq<Param> {
    if |init| > 0 && init[0] == '?' then Parse(init[1..]) else Parse(init)
  }

  /** `URLSearchParams.get`: the value of the first pair named `name`, if any. */
  function Get(ps: seq<Param>, name: string): Option<string> {
    if |ps| == 0 then None
    else if ps[0].name == name then Some(ps[0].value)
    else Get(ps[1..], name)
  }

  /**
   * `get` finds nothing exactly when no pair has the name, and otherwise the
   * value of a pair with that name that no earlier pair shares.
   */
  lemma {:induction false} GetFindsFirst(ps: seq<Param>, name: string)
    ensures Get(ps, name).None? <==> forall k :: 0 <= k < |ps| ==> ps[k].name != name
    ensures Get(ps, name).Some? ==>
              exists k :: 0 <= k < |ps| && ps[k] == Param(name, Get(ps, name).value)
                          && forall j :: 0 <= j < k ==> ps[j].name != name
  {
    if |ps| > 0 && ps[0].name != name {
      GetFindsFirst(ps[1..], name);
      assert forall k :: 1 <= k < |ps| ==> ps[k] == ps[1..][k - 1];
      if Get(ps, name).Some? {
        var k :| 0 <= k < |ps[1..]| && ps[1..][k] == Param(name, Get(ps, name).value)
                 && forall j :: 0 <= j < k ==> ps[1..][j].name != name;
        assert ps[k + 1] == Param(name, Get(ps, name).value);
      }
    }
  }

  /** The first occurrence wins: a name found in `a` hides every pair of `b`. */
  lemma {:induction false} GetFirstWins(a: seq<Param>, b: seq<Param>, name: string)
    ensures Get(a + b, name) == if Get(a, name).Some? then Get(a, name) else Get(b, name)
  {
    if |a| > 0 {
      assert (a + b)[0] == a[0];
      assert (a + b)[1..] == a[1..] + b;
      GetFirstWins(a[1..], b, name);
    } else {
      assert a + b == b;
    }
  }

  /** A pair that can be printed and parsed back unchanged. */
  predicate Encodable(p: Param) {
    '&' !in p.name && '&' !in p.value && '=' !in p.name
  }

  function PairTexts(ps: seq<Param>): (ts: seq<string>)
    ensures |ts| == |ps|
    ensures forall k :: 0 <= k < |ps| ==> ts[k] == PairText(ps[k])
  {
    if |ps| == 0 then [] else [PairText(ps[0])] + PairTexts(ps[1..])
  }

  /** The query string of a list of pairs, `n1=v1&n2=v2...`. */
  function Serialize(ps: seq<Param>): string {
    if |ps| == 0 then "" else Join(PairTexts(ps), '&')
  }

  lemma {:induction false} ParsePairTexts(ps: seq<Param>)
    requires forall k :: 0 <= k < |ps| ==> Encodable(ps[k])
    ensures ParsePieces(PairTexts(ps)) == ps
  {
    if |ps| > 0 {
      var ts := PairTexts(ps);
      assert ts[0] == PairText(ps[0]);
      assert |ts[0]| > 0 by { assert ts[0][|ps[0].name|] == '='; }
      PairRoundTrip(ps[0]);
      assert ts[1..] == PairTexts(ps[1..]);
      ParsePairTexts(ps[1..]);
    }
  }

  /** Parsing a serialized list of encodable pairs gives the list back. */
  lemma ParseSerialize(ps: seq<Param>)
    requires forall k :: 0 <= k < |ps| ==> Encodable(ps[k])
    ensures Parse(Serialize(ps)) == ps
  {
    if |ps| == 0 {
      assert Split("", '&') == [""];
    } else {
      var ts := PairTexts(ps);
      forall k | 0 <= k < |ts| ensures '&' !in ts[k] {
        assert ts[k] == ps[k].name + "=" + ps[k].value;
      }
      JoinThenSplit(ts, '&');
      ParsePairTexts(ps);
    }
  }
}
