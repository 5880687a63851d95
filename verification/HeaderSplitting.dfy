/** The quote-aware comma splitter for authentication headers (library/src/monerod_client/authentication.rs:191-214). */
module HeaderSplitting {

  // ---------------------------------------------------------------------------
  // Trimming
  // ---------------------------------------------------------------------------

  /** The characters with the Unicode White_Space property. */
  predicate IsSpace(c: char)
  {
    || '\U{0009}' <= c <= '\U{000D}' || c == ' ' || c == '\U{0085}' || c == '\U{00A0}' || c == '\U{1680}'
    || '\U{2000}' <= c <= '\U{200A}' || c == '\U{2028}' || c == '\U{2029}' || c == '\U{202F}' || c == '\U{205F}'
    || c == '\U{3000}'
  }

  /** The same characters, listed. */
  const WHITE_SPACE: string :=
    "\U{0009}\U{000A}\U{000B}\U{000C}\U{000D} \U{0085}\U{00A0}\U{1680}\U{2000}\U{2001}\U{2002}\U{2003}\U{2004}" +
    "\U{2005}\U{2006}\U{2007}\U{2008}\U{2009}\U{200A}\U{2028}\U{2029}\U{202F}\U{205F}\U{3000}"

  lemma SpacesAre(c: char)
    ensures IsSpace(c) <==> c in WHITE_SPACE
  {
  }

  ghost predicate AllSpace(s: string) { forall i :: 0 <= i < |s| ==> IsSpace(s[i]) }

  function TrimStart(s: string): string { if |s| > 0 && IsSpace(s[0]) then TrimStart(s[1..]) else s }

  function TrimEnd(s: string): string { if |s| > 0 && IsSpace(s[|s| - 1]) then TrimEnd(s[..|s| - 1]) else s }

  function Trim(s: string): string { TrimEnd(TrimStart(s)) }

  function TrimCommas(s: string): string { if |s| > 0 && s[0] == ',' then TrimCommas(s[1..]) else s }

  /** Nonempty, with neither a leading nor a trailing space. */
  predicate IsTrimmed(s: string) { |s| > 0 && !IsSpace(s[0]) && !IsSpace(s[|s| - 1]) }

  lemma {:induction false} TrimStartOfPadded(left: string, s: string)
    requires AllSpace(left)
    ensures TrimStart(left + s) == TrimStart(s)
  {
    if |left| == 0 {
      assert left + s == s;
    } else {
      assert (left + s)[1..] == left[1..] + s;
      TrimStartOfPadded(left[1..], s);
    }
  }

  lemma {:induction false} TrimEndOfPadded(s: string, right: string)
    requires AllSpace(right)
    ensures TrimEnd(s + right) == TrimEnd(s)
  {
    if |right| == 0 {
      assert s + right == s;
    } else {
      assert (s + right)[..|s + right| - 1] == s + right[..|right| - 1];
      TrimEndOfPadded(s, right[..|right| - 1]);
    }
  }

  lemma {:induction false} TrimStartIs(s: string)
    ensures var t := TrimStart(s);
            && |t| <= |s| && t == s[|s| - |t|..] && AllSpace(s[..|s| - |t|])
            && (|t| > 0 ==> !IsSpace(t[0]))
  {
    if |s| > 0 && IsSpace(s[0]) {
      TrimStartIs(s[1..]);
      var t := TrimStart(s);
      assert s[..|s| - |t|] == [s[0]] + s[1..][..|s| - 1 - |t|];
    }
  }

  lemma {:induction false} TrimEndIs(s: string)
    ensures var t := TrimEnd(s);
            && |t| <= |s| && t == s[..|t|] && AllSpace(s[|t|..])
            && (|t| > 0 ==> !IsSpace(t[|t| - 1]))
  {
    if |s| > 0 && IsSpace(s[|s| - 1]) {
      var init := s[..|s| - 1];
      TrimEndIs(init);
      assert s[|TrimEnd(s)|..] == init[|TrimEnd(s)|..] + [s[|s| - 1]];
    }
  }

  /** Of any text, trimming leaves a stretch with nothing but white space before and after it, and none at its ends. */
  lemma TrimIs(s: string)
    ensures var t := Trim(s);
            && (t == "" || IsTrimmed(t))
            && exists k :: 0 <= k <= |s| - |t| && t == s[k..k + |t|] && AllSpace(s[..k]) && AllSpace(s[k + |t|..])
  {
    var u := TrimStart(s);
    TrimStartIs(s);
    TrimEndIs(u);
    var k, t := |s| - |u|, Trim(s);
    assert s[k..k + |t|] == t && s[k + |t|..] == u[|t|..];
    if |t| > 0 { assert t[0] == u[0]; }
  }

  /** Trimming takes off the padding and no more. */
  lemma TrimTakesPadding(left: string, s: string, right: string)
    requires AllSpace(left) && AllSpace(right) && IsTrimmed(s)
    ensures Trim(left + s + right) == s
  {
    assert left + s + right == left + (s + right);
    TrimStartOfPadded(left, s + right);
    assert (s + right)[0] == s[0];
    TrimEndOfPadded(s, right);
  }

  // ---------------------------------------------------------------------------
  // Splitting at commas outside quotes
  // ---------------------------------------------------------------------------

  /** Whether an odd number of each quote character has gone by. */
  datatype Quotes = Quotes(single: bool, double: bool)

  const OUTSIDE := Quotes(false, false)

  function Toggle(q: Quotes, c: char): Quotes
  {
    if c == '\'' then q.(single := !q.single) else if c == '\"' then q.(double := !q.double) else q
  }

  function After(s: string): Quotes
  {
    if |s| == 0 then OUTSIDE else Toggle(After(s[..|s| - 1]), s[|s| - 1])
  }

  /** Both kinds of quotes occur an even number of times. */
  ghost predicate Balanced(s: string) { multiset(s)['\''] % 2 == 0 && multiset(s)['\"'] % 2 == 0 }

  /** A quote is open after an odd number of its character; outside is after an even number of each. */
  lemma {:induction false} OutsideIff(s: string)
    ensures After(s).single <==> multiset(s)['\''] % 2 == 1
    ensures After(s).double <==> multiset(s)['\"'] % 2 == 1
    ensures After(s) == OUTSIDE <==> Balanced(s)
  {
    if |s| > 0 {
      var init, c := s[..|s| - 1], s[|s| - 1];
      OutsideIff(init);
      assert s == init + [c];
    }
  }

  /** The comma at i is outside quotes. */
  predicate BareCommaAt(s: string, i: nat)
    requires i < |s|
  {
    s[i] == ',' && After(s[..i]) == OUTSIDE
  }

  /** Commas occur only inside quotes. */
  ghost predicate NoBareComma(s: string) { forall i :: 0 <= i < |s| ==> !BareCommaAt(s, i) }

  function Join(ps: seq<string>): string
  {
    if |ps| == 0 then "" else if |ps| == 1 then ps[0] else Join(ps[..|ps| - 1]) + "," + ps[|ps| - 1]
  }

  /** The text between the commas outside quotes. */
  function Pieces(s: string): (ps: seq<string>)
    ensures |ps| >= 1
  {
    if |s| == 0 then [""]
    else
      Extend(Pieces(s[..|s| - 1]), s[|s| - 1], BareCommaAt(s, |s| - 1))
  }

  /** A separating comma starts a new piece; any other character goes to the last one. */
  function Extend(ps: seq<string>, c: char, separates: bool): (r: seq<string>)
    requires |ps| >= 1
    ensures |r| >= 1
  {
    if separates then ps + [""] else ps[|ps| - 1 := ps[|ps| - 1] + [c]]
  }

  function Last(ps: seq<string>): string
    requires |ps| >= 1
  {
    ps[|ps| - 1]
  }

  /** Separable: each has its commas inside quotes, and all but the last close their quotes. */
  ghost predicate Separable(ps: seq<string>)
  {
    && (forall i :: 0 <= i < |ps| ==> NoBareComma(ps[i]))
    && forall i :: 0 <= i < |ps| - 1 ==> After(ps[i]) == OUTSIDE
  }

  lemma NoBareCommaSnoc(p: string, c: char)
    ensures NoBareComma(p + [c]) <==> NoBareComma(p) && !(c == ',' && After(p) == OUTSIDE)
  {
    var s := p + [c];
    assert s[..|p|] == p;
    assert forall i :: 0 <= i < |p| ==> s[..i] == p[..i] && s[i] == p[i];
    if NoBareComma(s) {
      forall i | 0 <= i < |p|
        ensures !BareCommaAt(p, i)
      {
        assert !BareCommaAt(s, i);
      }
      assert !BareCommaAt(s, |p|);
    }
    if NoBareComma(p) && !(c == ',' && After(p) == OUTSIDE) {
      forall i | 0 <= i < |s|
        ensures !BareCommaAt(s, i)
      {
        if i < |p| { assert !BareCommaAt(p, i); }
      }
    }
  }

  lemma AfterSnoc(p: string, c: char)
    ensures After(p + [c]) == Toggle(After(p), c)
  {
    assert (p + [c])[..|p|] == p;
  }

  lemma ExtendIsSeparable(ps: seq<string>, c: char, separates: bool)
    requires |ps| >= 1 && Separable(ps) && (separates <==> c == ',' && After(Last(ps)) == OUTSIDE)
    ensures Separable(Extend(ps, c, separates))
    ensures After(Last(Extend(ps, c, separates))) == Toggle(After(Last(ps)), c)
  {
    var r := Extend(ps, c, separates);
    NoBareCommaSnoc(Last(ps), c);
    AfterSnoc(Last(ps), c);
    forall i | 0 <= i < |r|
      ensures NoBareComma(r[i]) && (i < |r| - 1 ==> After(r[i]) == OUTSIDE)
    {
      if i < |ps| - 1 { assert r[i] == ps[i]; }
    }
  }

  /** The pieces are separable, and the last one is in the quote state of the whole text. */
  lemma {:induction false} PiecesAreSeparable(s: string)
    ensures Separable(Pieces(s))
    ensures After(Last(Pieces(s))) == After(s)
  {
    if |s| > 0 {
      PiecesAreSeparable(s[..|s| - 1]);
      ExtendIsSeparable(Pieces(s[..|s| - 1]), s[|s| - 1], BareCommaAt(s, |s| - 1));
    }
  }

  lemma JoinSnoc(ps: seq<string>, p: string)
    requires |ps| >= 1
    ensures Join(ps + [p]) == Join(ps) + "," + p
  {
    assert (ps + [p])[..|ps|] == ps;
  }

  lemma JoinExtend(ps: seq<string>, c: char, separates: bool)
    requires |ps| >= 1 && (separates ==> c == ',')
    ensures Join(Extend(ps, c, separates)) == Join(ps) + [c]
  {
    if separates {
      JoinSnoc(ps, "");
      assert Join(ps) + "," + "" == Join(ps) + [c];
    } else if |ps| == 1 {
      assert Extend(ps, c, separates) == [ps[0] + [c]];
    } else {
      InitAndLast(ps, Last(ps) + [c]);
      JoinLonger(ps[..|ps| - 1], Last(ps), c);
    }
  }

  lemma InitAndLast<T>(s: seq<T>, x: T)
    requires |s| > 0
    ensures s[..|s| - 1] + [s[|s| - 1]] == s
    ensures s[..|s| - 1] + [x] == s[|s| - 1 := x]
  {
  }

  lemma Regroup<T>(a: seq<T>, b: seq<T>, c: seq<T>)
    ensures a + (b + c) == (a + b) + c
  {
  }

  lemma JoinLonger(init: seq<string>, p: string, c: char)
    requires |init| >= 1
    ensures Join(init + [p + [c]]) == Join(init + [p]) + [c]
  {
    JoinSnoc(init, p);
    JoinSnoc(init, p + [c]);
    Regroup(Join(init) + ",", p, [c]);
  }

  lemma {:induction false} PiecesJoin(s: string)
    ensures Join(Pieces(s)) == s
  {
    if |s| > 0 {
      PiecesJoin(s[..|s| - 1]);
      InitAndLast(s, s[|s| - 1]);
      JoinExtend(Pieces(s[..|s| - 1]), s[|s| - 1], BareCommaAt(s, |s| - 1));
    }
  }

  lemma PiecesSnoc(s: string, c: char)
    ensures Pieces(s + [c]) == Extend(Pieces(s), c, c == ',' && After(s) == OUTSIDE)
  {
    var t := s + [c];
    assert t[..|t| - 1] == s && t[|t| - 1] == c;
  }

  lemma {:induction false} OnePiece(p: string)
    requires NoBareComma(p)
    ensures Pieces(p) == [p]
  {
    if |p| > 0 {
      var init, c := p[..|p| - 1], p[|p| - 1];
      assert p == init + [c];
      NoBareCommaSnoc(init, c);
      OnePiece(init);
    }
  }

  /** One more separable text after a comma is one more piece. */
  lemma {:induction false} PiecesAppend(s: string, p: string)
    requires After(s) == OUTSIDE && NoBareComma(p)
    ensures Pieces(s + "," + p) == Pieces(s) + [p]
    ensures After(s + "," + p) == After(p)
  {
    if |p| == 0 {
      assert s + "," + p == s + [','];
      PiecesSnoc(s, ',');
      AfterSnoc(s, ',');
    } else {
      var init, c := p[..|p| - 1], p[|p| - 1];
      assert p == init + [c];
      NoBareCommaSnoc(init, c);
      PiecesAppend(s, init);
      assert s + "," + p == (s + "," + init) + [c];
      PiecesSnoc(s + "," + init, c);
      AfterSnoc(s + "," + init, c);
      AfterSnoc(init, c);
    }
  }

  lemma InitIsSeparable(ps: seq<string>)
    requires |ps| > 1 && Separable(ps)
    ensures Separable(Front(ps)) && After(Last(Front(ps))) == OUTSIDE && NoBareComma(Last(ps))
  {
    assert forall i :: 0 <= i < |Front(ps)| ==> Front(ps)[i] == ps[i];
  }

  /** The pieces are the only separable texts that join to the whole. */
  lemma {:induction false} PiecesOfJoin(ps: seq<string>)
    requires |ps| > 0 && Separable(ps)
    ensures Pieces(Join(ps)) == ps
    ensures After(Join(ps)) == After(Last(ps))
  {
    if |ps| == 1 {
      OnePiece(ps[0]);
    } else {
      var init := Front(ps);
      InitIsSeparable(ps);
      PiecesOfJoin(init);
      PiecesAppend(Join(init), Last(ps));
      assert ps == init + [Last(ps)];
      JoinSnoc(init, Last(ps));
    }
  }

  // ---------------------------------------------------------------------------
  // The splitter
  // ---------------------------------------------------------------------------

  function TrimAll(ps: seq<string>): (r: seq<string>)
    ensures |r| == |ps|
  {
    seq(|ps|, i requires 0 <= i < |ps| => Trim(ps[i]))
  }

  /** What the splitter returns: every piece, trimmed; nothing at all for the empty header. */
  function Split(header: string): seq<string> { if header == "" then [] else TrimAll(Pieces(header)) }

  /** From the last split on: the comma split at, if any, and the piece in progress. */
  function Tail(ps: seq<string>): string
    requires |ps| >= 1
  {
    (if |ps| > 1 then "," else "") + Last(ps)
  }

  function Front(ps: seq<string>): seq<string>
    requires |ps| >= 1
  {
    ps[..|ps| - 1]
  }

  lemma TailTrims(s: string)
    ensures TrimCommas(Tail(Pieces(s))) == Last(Pieces(s))
  {
    PiecesAreSeparable(s);
    var ps := Pieces(s);
    var p := Last(ps);
    assert NoBareComma(p);
    if |p| > 0 { assert !BareCommaAt(p, 0); }
    if |ps| > 1 {
      assert Tail(ps)[1..] == p;
    } else {
      assert Tail(ps) == p;
    }
  }

  lemma TrimAllSnoc(ps: seq<string>)
    requires |ps| >= 1
    ensures TrimAll(Front(ps)) + [Trim(Last(ps))] == TrimAll(ps)
  {
  }

  /** How far the loop has come: `text` is read, its finished pieces are in `parts`, `tail` follows the last split. */
  ghost predicate ReadSoFar(text: string, parts: seq<string>, tail: string)
  {
    tail == Tail(Pieces(text)) && parts == TrimAll(Front(Pieces(text)))
  }

  /** One more character. */
  lemma ReadOneMore(text: string, c: char, parts: seq<string>, tail: string)
    requires ReadSoFar(text, parts, tail)
    ensures if c == ',' && After(text) == OUTSIDE
            then ReadSoFar(text + [c], parts + [Trim(TrimCommas(tail))], ",")
            else ReadSoFar(text + [c], parts, tail + [c])
  {
    var ps, next := Pieces(text), Pieces(text + [c]);
    PiecesSnoc(text, c);
    TailTrims(text);
    if c == ',' && After(text) == OUTSIDE {
      TrimAllSnoc(ps);
      assert Front(next) == ps && Tail(next) == ",";
    } else {
      assert Front(next) == Front(ps);
      assert Tail(next) == Tail(ps) + [c];
    }
  }

  lemma ReadNext(header: string, i: nat, lastSplit: nat, parts: seq<string>)
    requires lastSplit <= i < |header| && ReadSoFar(header[..i], parts, header[lastSplit..i])
    ensures After(header[..i + 1]) == Toggle(After(header[..i]), header[i])
    ensures if header[i] == ',' && After(header[..i]) == OUTSIDE
            then ReadSoFar(header[..i + 1], parts + [Trim(TrimCommas(header[lastSplit..i]))], header[i..i + 1])
            else ReadSoFar(header[..i + 1], parts, header[lastSplit..i + 1])
  {
    assert header[..i + 1] == header[..i] + [header[i]];
    assert header[lastSplit..i + 1] == header[lastSplit..i] + [header[i]];
    assert header[i..i + 1] == [header[i]];
    AfterSnoc(header[..i], header[i]);
    ReadOneMore(header[..i], header[i], parts, header[lastSplit..i]);
  }

  lemma ReadAll(header: string, i: nat, lastSplit: nat, parts: seq<string>)
    requires lastSplit <= i == |header| && i > 0 && ReadSoFar(header[..i], parts, header[lastSplit..i])
    ensures parts + [Trim(TrimCommas(header[lastSplit..]))] == Split(header)
  {
    assert header[..i] == header && header[lastSplit..] == header[lastSplit..i];
    TailTrims(header);
    TrimAllSnoc(Pieces(header));
  }

  /** The loop's state: everything read so far, or, after the last character, everything. */
  ghost predicate SplittingAt(header: string, i: nat, lastSplit: nat, parts: seq<string>)
    requires lastSplit <= i <= |header|
  {
    if i == |header| then parts == Split(header) else ReadSoFar(header[..i], parts, header[lastSplit..i])
  }

  method SplitHeader(header: string) returns (parts: seq<string>)
    ensures parts == Split(header)
  {
    parts := [];
    var inSingleQuote, inDoubleQuote, lastSplit: nat := false, false, 0;
    for i := 0 to |header|
      invariant lastSplit <= i && Quotes(inSingleQuote, inDoubleQuote) == After(header[..i])
      invariant SplittingAt(header, i, lastSplit, parts)
    {
      ReadNext(header, i, lastSplit, parts);
      if header[i] == '\'' {
        inSingleQuote := !inSingleQuote;
      } else if header[i] == '\"' {
        inDoubleQuote := !inDoubleQuote;
      } else if header[i] == ',' {
        if !inSingleQuote && !inDoubleQuote {
          parts := parts + [Trim(TrimCommas(header[lastSplit..i]))];
          lastSplit := i;
        }
      }
      if i + 1 == |header| {
        ReadAll(header, i + 1, lastSplit, parts);
        parts := parts + [Trim(TrimCommas(header[lastSplit..]))];
      }
    }
  }

  // ---------------------------------------------------------------------------
  // The round trip
  // ---------------------------------------------------------------------------

  /** A parameter of a header: trimmed, both kinds of quotes closed, every comma after an odd number of one kind. */
  ghost predicate IsParameter(p: string)
  {
    && IsTrimmed(p)
    && multiset(p)['\''] % 2 == 0 && multiset(p)['\"'] % 2 == 0
    && forall i :: 0 <= i < |p| && p[i] == ',' ==>
         multiset(p[..i])['\''] % 2 == 1 || multiset(p[..i])['\"'] % 2 == 1
  }

  lemma ParameterIff(p: string)
    ensures IsParameter(p) <==> IsTrimmed(p) && NoBareComma(p) && After(p) == OUTSIDE
  {
    OutsideIff(p);
    forall i | 0 <= i < |p|
      ensures After(p[..i]) == OUTSIDE <==> Balanced(p[..i])
    {
      OutsideIff(p[..i]);
    }
    if NoBareComma(p) {
      forall i | 0 <= i < |p| && p[i] == ','
        ensures !Balanced(p[..i])
      {
        assert !BareCommaAt(p, i);
      }
    }
  }

  /** Each parameter with white space around it. */
  function Padded(lefts: seq<string>, ps: seq<string>, rights: seq<string>): (r: seq<string>)
    requires |lefts| == |ps| == |rights|
    ensures |r| == |ps|
  {
    seq(|ps|, i requires 0 <= i < |ps| => lefts[i] + ps[i] + rights[i])
  }

  lemma {:induction false} SpaceIsPlain(s: string, right: string)
    requires AllSpace(right) && NoBareComma(s)
    ensures NoBareComma(s + right) && After(s + right) == After(s)
  {
    if |right| == 0 {
      assert s + right == s;
    } else {
      var init, c := right[..|right| - 1], right[|right| - 1];
      SpaceIsPlain(s, init);
      assert s + right == (s + init) + [c];
      NoBareCommaSnoc(s + init, c);
      AfterSnoc(s + init, c);
    }
  }

  lemma {:induction false} PlainThen(left: string, s: string)
    requires AllSpace(left) && NoBareComma(s)
    ensures NoBareComma(left + s) && After(left + s) == After(s)
  {
    if |s| == 0 {
      assert left + s == "" + left;
      assert NoBareComma("");
      SpaceIsPlain("", left);
    } else {
      var init, c := s[..|s| - 1], s[|s| - 1];
      assert s == init + [c];
      NoBareCommaSnoc(init, c);
      PlainThen(left, init);
      assert left + s == (left + init) + [c];
      NoBareCommaSnoc(left + init, c);
      AfterSnoc(left + init, c);
      AfterSnoc(init, c);
    }
  }

  lemma PaddedIsSeparable(lefts: seq<string>, ps: seq<string>, rights: seq<string>)
    requires |lefts| == |ps| == |rights|
    requires forall i :: 0 <= i < |ps| ==> IsParameter(ps[i]) && AllSpace(lefts[i]) && AllSpace(rights[i])
    ensures Separable(Padded(lefts, ps, rights))
  {
    forall i | 0 <= i < |ps|
      ensures NoBareComma(Padded(lefts, ps, rights)[i]) && After(Padded(lefts, ps, rights)[i]) == OUTSIDE
    {
      ParameterIff(ps[i]);
      PlainThen(lefts[i], ps[i]);
      SpaceIsPlain(lefts[i] + ps[i], rights[i]);
    }
  }

  /** Header splitting round trip: parameters joined with commas, with any white space around each, split into the
      same parameters. */
  lemma SplitJoinRoundTrip(lefts: seq<string>, ps: seq<string>, rights: seq<string>)
    requires |lefts| == |ps| == |rights|
    requires forall i :: 0 <= i < |ps| ==> IsParameter(ps[i]) && AllSpace(lefts[i]) && AllSpace(rights[i])
    ensures Split(Join(Padded(lefts, ps, rights))) == ps
  {
    var padded := Padded(lefts, ps, rights);
    if |ps| > 0 {
      PaddedIsSeparable(lefts, ps, rights);
      PiecesOfJoin(padded);
      JoinIsNonempty(padded);
      forall i | 0 <= i < |ps|
        ensures Trim(padded[i]) == ps[i]
      {
        TrimTakesPadding(lefts[i], ps[i], rights[i]);
      }
    }
  }

  lemma JoinIsNonempty(ps: seq<string>)
    requires |ps| > 0 && |ps[|ps| - 1]| > 0
    ensures Join(ps) != ""
  {
  }

  /** The other way round, for every header: the trimmed parts come from the only separable pieces it consists of. */
  lemma SplitIsTheOnlySplit(header: string, ps: seq<string>)
    requires |ps| > 0 && Join(ps) == header && header != ""
    requires Separable(ps)
    ensures Split(header) == TrimAll(ps)
    ensures Separable(Pieces(header)) && Join(Pieces(header)) == header
  {
    PiecesOfJoin(ps);
    PiecesJoin(header);
  }
}
