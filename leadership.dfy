/** The public leadership page: each member's avatar falls back to the initials
    of the name, `name.split(' ').map(n => n[0]).join('')`. */
module LeadershipPage {
  import opened Base
  import opened JsText
  import opened Lists

  /** `n[0]` on one piece: its first character, `undefined` for the empty piece. */
  function Head(piece: string): (r: Option<char>)
    ensures r.None? <==> piece == ""
    ensures r.Some? ==> r.value == piece[0]
  {
    if piece == "" then None else Some(piece[0])
  }

  /** `.map(n => n[0])`. */
  function Heads(pieces: seq<string>): (r: seq<Option<char>>)
    ensures |r| == |pieces|
    ensures forall i :: 0 <= i < |pieces| ==> r[i] == Head(pieces[i])
  {
    if pieces == [] then [] else [Head(pieces[0])] + Heads(pieces[1..])
  }

  /** `.join('')`: an `undefined` element joins as the empty string. */
  function JoinHeads(heads: seq<Option<char>>): string
  {
    if heads == [] then ""
    else (match heads[0] case None => "" case Some(c) => [c]) + JoinHeads(heads[1..])
  }

  /** The avatar initials of a name. */
  function Initials(name: string): string
  {
    JoinHeads(Heads(Split(name, ' ')))
  }

  /** Reference reading: the characters of `s` that start a word, a word being
      a maximal run of non-space characters; `atStart` says whether the
      previous character (if any) was a space. */
  function WordStarts(s: string, atStart: bool): string
  {
    if s == [] then ""
    else if s[0] == ' ' then WordStarts(s[1..], true)
    else (if atStart then [s[0]] else "") + WordStarts(s[1..], false)
  }

  predicate NonEmpty(piece: string)
  {
    piece != ""
  }

  /** The initials are the first letters of the words of the name, in order;
      leading, trailing and doubled spaces contribute nothing. */
  lemma InitialsAreWordStarts(name: string)
    ensures Initials(name) == WordStarts(name, true)
  {
    WordStartsOfPieces(name);
  }

  /** Both readings of `WordStarts`: at a word start it gives the initials of
      all pieces, inside a word those of every piece but the first. */
  lemma {:induction false} WordStartsOfPieces(s: string)
    ensures WordStarts(s, true) == JoinHeads(Heads(Split(s, ' ')))
    ensures WordStarts(s, false) == JoinHeads(Heads(Split(s, ' ')[1..]))
  {
    if s != [] {
      WordStartsOfPieces(s[1..]);
      var rest := Split(s[1..], ' ');
      if s[0] == ' ' {
        assert Split(s, ' ') == [""] + rest;
        assert Heads([""] + rest) == [None] + Heads(rest) by {
          assert ([""] + rest)[1..] == rest;
        }
        assert ([None] + Heads(rest))[1..] == Heads(rest);
        assert ([""] + rest)[1..] == rest;
      } else {
        var first := [s[0]] + rest[0];
        assert Split(s, ' ') == [first] + rest[1..];
        assert Heads([first] + rest[1..]) == [Some(s[0])] + Heads(rest[1..]) by {
          assert ([first] + rest[1..])[1..] == rest[1..];
        }
        assert ([Some(s[0])] + Heads(rest[1..]))[1..] == Heads(rest[1..]);
        assert ([first] + rest[1..])[1..] == rest[1..];
      }
    }
  }

  /** There are as many initials as non-empty pieces. */
  lemma {:induction false} JoinHeadsLength(pieces: seq<string>)
    ensures |JoinHeads(Heads(pieces))| == |Filter(pieces, NonEmpty)|
  {
    if pieces != [] {
      JoinHeadsLength(pieces[1..]);
      assert Heads(pieces)[1..] == Heads(pieces[1..]);
    }
  }

  /** The length of the initials is the number of non-empty `' '`-separated
      pieces of the name. */
  lemma InitialsLength(name: string)
    ensures |Initials(name)| == |Filter(Split(name, ' '), NonEmpty)|
  {
    JoinHeadsLength(Split(name, ' '));
  }

  /** A name without spaces gives its first character; the empty name gives
      the empty string. */
  lemma InitialsOfOneWord(name: string)
    requires ' ' !in name
    ensures Initials(name) == if name == "" then "" else [name[0]]
  {
    SplitOfPiece(name, ' ');
    assert Heads([name]) == [Head(name)];
    assert JoinHeads([Head(name)]) == (match Head(name) case None => "" case Some(c) => [c]) + JoinHeads([]);
  }
}
