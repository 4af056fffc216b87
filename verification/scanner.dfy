/** The suspicious-token scanner: a pattern of one-character tokens (single quote,
    double quote, semicolon, pipe) and two-character tokens (double dash, the two
    block-comment delimiters, double ampersand) searched anywhere in a value, and the
    scan over an ordered list of named fields that reports the first field whose
    non-empty value matches. */
module Scanner {

  /** Where a search ended: at a position, or nowhere. */
  datatype Found = Nowhere | At(index: nat)

  /** The two-character tokens: double dash, the block-comment opener and closer
      (slash-star, star-slash), and double ampersand. */
  predicate TokenPair(a: char, b: char)
  {
    || (a == '-' && b == '-')
    || (a == '/' && b == '*')
    || (a == '*' && b == '/')
    || (a == '&' && b == '&')
  }

  /** The one-character tokens: single quote, double quote, semicolon and pipe. */
  predicate TokenChar(c: char)
  {
    c == '\'' || c == '"' || c == ';' || c == '|'
  }

  /** Some alternative of the pattern matches at position `i` of `s`. */
  predicate TokenAt(s: string, i: nat)
    requires i < |s|
  {
    TokenChar(s[i]) || (i + 1 < |s| && TokenPair(s[i], s[i + 1]))
  }

  /** The pattern occurs somewhere in `s`: the reference meaning of a regex search. */
  predicate Suspicious(s: string)
  {
    exists i :: 0 <= i < |s| && TokenAt(s, i)
  }

  /** The leftmost position at or after `from` where the pattern matches, as a regex
      search scanning left to right finds it. */
  function Search(s: string, from: nat): (r: Found)
    requires from <= |s|
    ensures r.Nowhere? <==> forall i :: from <= i < |s| ==> !TokenAt(s, i)
    ensures r.At? ==> from <= r.index < |s| && TokenAt(s, r.index)
    ensures r.At? ==> forall i :: from <= i < r.index ==> !TokenAt(s, i)
    decreases |s| - from
  {
    if from == |s| then Nowhere
    else if TokenAt(s, from) then At(from)
    else Search(s, from + 1)
  }

  /** The search from the start finds a match exactly when the pattern occurs. */
  lemma SearchIffSuspicious(s: string)
    ensures Search(s, 0).At? <==> Suspicious(s)
  {
  }

  /** A field value is flagged when it is non-empty and the search finds a token. */
  predicate Flagged(v: string)
  {
    |v| > 0 && Search(v, 0).At?
  }

  /** The outcome of a scan: no field matched, or the first one that did. */
  datatype ScanResult = NoMatch | Match(name: string, value: string)

  /** The index of the first field at or after `from` whose value is flagged. */
  function FirstFlagged(fields: seq<(string, string)>, from: nat): (r: Found)
    requires from <= |fields|
    ensures r.Nowhere? <==> forall i :: from <= i < |fields| ==> !Flagged(fields[i].1)
    ensures r.At? ==> from <= r.index < |fields| && Flagged(fields[r.index].1)
    ensures r.At? ==> forall i :: from <= i < r.index ==> !Flagged(fields[i].1)
    decreases |fields| - from
  {
    if from == |fields| then Nowhere
    else if Flagged(fields[from].1) then At(from)
    else FirstFlagged(fields, from + 1)
  }

  /** Scans the fields in the order given and reports the first flagged one, by name
      and value; reports no match when no value is flagged. */
  function CheckParams(fields: seq<(string, string)>): (r: ScanResult)
    ensures r.NoMatch? <==> forall i :: 0 <= i < |fields| ==> !Flagged(fields[i].1)
    ensures r.Match? ==>
              exists i :: 0 <= i < |fields| && fields[i] == (r.name, r.value)
                && Flagged(r.value)
                && forall j :: 0 <= j < i ==> !Flagged(fields[j].1)
  {
    match FirstFlagged(fields, 0)
    case Nowhere => NoMatch
    case At(i) => Match(fields[i].0, fields[i].1)
  }

  /** An empty value is never flagged, and a flagged value carries a token. */
  lemma FlaggedMeansToken(v: string)
    ensures Flagged(v) <==> Suspicious(v)
    ensures !Flagged("")
  {
    SearchIffSuspicious(v);
  }

  /** Each single-character token, and each two-character token, is found wherever it
      sits inside a value. */
  lemma EveryTokenDetected(pre: string, post: string)
    ensures forall c :: TokenChar(c) ==> Flagged(pre + [c] + post)
    ensures forall a, b :: TokenPair(a, b) ==> Flagged(pre + [a, b] + post)
  {
    forall c | TokenChar(c)
      ensures Flagged(pre + [c] + post)
    {
      var s := pre + [c] + post;
      assert TokenAt(s, |pre|);
      SearchIffSuspicious(s);
    }
    forall a, b | TokenPair(a, b)
      ensures Flagged(pre + [a, b] + post)
    {
      var s := pre + [a, b] + post;
      assert s[|pre|] == a && s[|pre| + 1] == b;
      assert TokenAt(s, |pre|);
      SearchIffSuspicious(s);
    }
  }

  /** A value built only from lone `&`, `-`, `/`, `*` and other harmless characters, with
      no two of them forming a pair, is not flagged. */
  lemma LoneHalvesNotFlagged(v: string)
    requires forall i :: 0 <= i < |v| ==> !TokenChar(v[i])
    requires forall i :: 0 <= i < |v| - 1 ==> !TokenPair(v[i], v[i + 1])
    ensures !Flagged(v)
  {
    SearchIffSuspicious(v);
  }
}
