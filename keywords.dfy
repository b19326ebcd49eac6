/**
 * The crime-keyword search `CRIME_RE.search(text)` and `match.group(1).lower()`,
 * for the pattern `\b(alternative|...)\b` compiled with IGNORECASE.
 */
module CrimeKeywords {
  import opened Options
  import opened Text

  /**
   * The alternatives of the pattern, in the order the regex engine tries them
   * at one position: an optional suffix is greedy, so `bomb(?:ing)?` tries
   * "bombing" before "bomb", while `embezzl(?:e|ement)` tries "embezzle" first.
   */
  const KEYWORDS: seq<string> := [
    "murder", "assassination", "assassin", "shooting", "robbery", "kidnapping", "kidnap", "hijack",
    "massacre", "bombing", "bomb", "terrorism", "terrorist", "serial killer", "strangler",
    "ripper", "fraud", "embezzle", "embezzlement", "money laundering", "insider trading",
    "tax evasion", "bribery", "corruption", "extortion", "ponzi", "scam", "securities fraud",
    "pyramid scheme", "price fixing", "racketeering", "manslaughter", "assault", "rape", "arson"]

  /** One of the alternatives of the pattern. */
  predicate IsKeyword(s: string)
  {
    s in KEYWORDS
  }

  /** `\w`, restricted to ASCII. */
  predicate IsWordChar(c: char)
  {
    'a' <= c <= 'z' || 'A' <= c <= 'Z' || '0' <= c <= '9' || c == '_'
  }

  /**
   * `\b(keyword)\b` matches `text` at position `i`, ignoring ASCII case. Every
   * keyword starts and ends with a letter, so the two word boundaries only ask
   * that the neighbouring characters, when present, are not word characters.
   */
  predicate MatchesAt(text: string, i: int, keyword: string)
  {
    && 0 <= i && i + |keyword| <= |text|
    && Lower(text[i..i + |keyword|]) == keyword
    && (i == 0 || !IsWordChar(text[i - 1]))
    && (i + |keyword| == |text| || !IsWordChar(text[i + |keyword|]))
  }

  /** A successful search: where the match starts and which alternative matched. */
  datatype Match = Match(start: nat, alternative: nat)

  /** The first alternative, from the `k`-th on, that matches at `i`. */
  function FirstAlternative(text: string, i: int, k: nat): (r: Option<nat>)
    requires k <= |KEYWORDS|
    ensures r.Some? ==> k <= r.value < |KEYWORDS| && MatchesAt(text, i, KEYWORDS[r.value])
    ensures r.Some? ==> forall j :: k <= j < r.value ==> !MatchesAt(text, i, KEYWORDS[j])
    ensures r.None? ==> forall j :: k <= j < |KEYWORDS| ==> !MatchesAt(text, i, KEYWORDS[j])
    decreases |KEYWORDS| - k
  {
    if k == |KEYWORDS| then None
    else if MatchesAt(text, i, KEYWORDS[k]) then Some(k)
    else FirstAlternative(text, i, k + 1)
  }

  /** No alternative matches at position `p`: trying them all there fails. */
  predicate NoMatchAt(text: string, p: int)
  {
    FirstAlternative(text, p, 0).None?
  }

  /**
   * `m` is what `search` reports from position `from` on: an alternative
   * matches at `m.start`, no earlier alternative matches there, and no
   * alternative matches at any position in between.
   */
  predicate Leftmost(text: string, from: nat, m: Match)
  {
    && from <= m.start && m.alternative < |KEYWORDS|
    && MatchesAt(text, m.start, KEYWORDS[m.alternative])
    && (forall j :: 0 <= j < m.alternative ==> !MatchesAt(text, m.start, KEYWORDS[j]))
    && (forall p :: from <= p < m.start ==> NoMatchAt(text, p))
  }

  /** `search` from position `from` on: the first position with a matching alternative. */
  function Search(text: string, from: nat): Option<Match>
    decreases |text| + 1 - from
  {
    if from > |text| then None
    else
      match FirstAlternative(text, from, 0)
      case Some(k) => Some(Match(from, k))
      case None => Search(text, from + 1)
  }

  /** No keyword fits after the end of the text. */
  lemma NoMatchPastEnd(text: string, p: int)
    requires p > |text|
    ensures NoMatchAt(text, p)
  {
    var r := FirstAlternative(text, p, 0);
    if r.Some? {
      assert false;
    }
  }

  /** The search reports the leftmost match, and finds none only when there is none. */
  lemma {:induction false} SearchIsLeftmost(text: string, from: nat)
    ensures Search(text, from).Some? ==> Leftmost(text, from, Search(text, from).value)
    ensures Search(text, from).None? ==> forall p :: from <= p ==> NoMatchAt(text, p)
    decreases |text| + 1 - from
  {
    if from > |text| {
      forall p | from <= p
        ensures NoMatchAt(text, p)
      {
        NoMatchPastEnd(text, p);
      }
    } else if FirstAlternative(text, from, 0).None? {
      SearchIsLeftmost(text, from + 1);
      var r := Search(text, from + 1);
      if r.Some? {
        assert Leftmost(text, from + 1, r.value);
        forall p | from <= p < r.value.start
          ensures NoMatchAt(text, p)
        {
          if p != from {
            assert from + 1 <= p < r.value.start;
          }
        }
      } else {
        forall p | from <= p
          ensures NoMatchAt(text, p)
        {
          if p != from {
            assert from + 1 <= p;
          }
        }
      }
    }
  }

  /**
   * `CRIME_RE.search(text)` followed by `match.group(1).lower()`: the keyword of
   * the leftmost match, or None when no keyword occurs as a whole word.
   */
  function CrimeKeyword(text: string): (r: Option<string>)
    ensures r.None? <==> forall p, j :: 0 <= p && 0 <= j < |KEYWORDS| ==> !MatchesAt(text, p, KEYWORDS[j])
    ensures r.Some? ==> r.value in KEYWORDS && exists p :: MatchesAt(text, p, r.value)
  {
    SearchIsLeftmost(text, 0);
    match Search(text, 0)
    case Some(m) =>
      assert Leftmost(text, 0, m);
      Some(KEYWORDS[m.alternative])
    case None =>
      assert forall p, j :: 0 <= p && 0 <= j < |KEYWORDS| ==> !MatchesAt(text, p, KEYWORDS[j]) by {
        forall p, j | 0 <= p && 0 <= j < |KEYWORDS| ensures !MatchesAt(text, p, KEYWORDS[j]) {
          assert NoMatchAt(text, p);
          assert FirstAlternative(text, p, 0).None?;
        }
      }
      None
  }

  /** The reported keyword is the alternative of the leftmost match that `search` finds. */
  lemma CrimeKeywordIsLeftmost(text: string)
    ensures CrimeKeyword(text).Some? ==>
              exists m :: Leftmost(text, 0, m) && CrimeKeyword(text).value == KEYWORDS[m.alternative]
  {
    SearchIsLeftmost(text, 0);
  }
}
