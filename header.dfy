/** The header's avatar initials: `name.split(' ').map(part => part[0]).join('').toUpperCase()`.
    Strings are sequences of characters and the upper-casing is that of ASCII letters. */
module Header {

  /** How many spaces `s` holds. */
  function SpaceCount(s: string): nat
  {
    if s == [] then 0 else (if s[0] == ' ' then 1 else 0) + SpaceCount(s[1..])
  }

  /** `s.split(' ')`: the pieces between single spaces, empty ones included. */
  function SplitOnSpace(s: string): (parts: seq<string>)
    ensures |parts| == SpaceCount(s) + 1
    ensures forall k :: 0 <= k < |parts| ==> ' ' !in parts[k]
  {
    if s == [] then [""]
    else if s[0] == ' ' then [""] + SplitOnSpace(s[1..])
    else
      var rest := SplitOnSpace(s[1..]);
      [[s[0]] + rest[0]] + rest[1..]
  }

  /** `parts.join(' ')`. */
  function JoinWithSpace(parts: seq<string>): string
    requires parts != []
  {
    if |parts| == 1 then parts[0] else parts[0] + " " + JoinWithSpace(parts[1..])
  }

  /** Splitting loses nothing: joining the pieces back with spaces gives the text. */
  lemma {:induction false} SplitJoinRoundTrip(s: string)
    ensures JoinWithSpace(SplitOnSpace(s)) == s
  {
    if s != [] {
      SplitJoinRoundTrip(s[1..]);
      var rest := SplitOnSpace(s[1..]);
      if s[0] == ' ' {
        assert SplitOnSpace(s)[1..] == rest;
      } else {
        var parts := SplitOnSpace(s);
        assert parts[1..] == rest[1..];
        if |rest| == 1 {
          assert JoinWithSpace(parts) == [s[0]] + rest[0];
        } else {
          assert JoinWithSpace(rest) == rest[0] + " " + JoinWithSpace(rest[1..]);
          assert JoinWithSpace(parts) == ([s[0]] + rest[0]) + " " + JoinWithSpace(rest[1..]);
        }
      }
    }
  }

  /** `parts.map(part => part[0]).join('')`: the first character of every piece; an
      empty piece gives `undefined`, which `join` writes as nothing. */
  function Heads(parts: seq<string>): (r: string)
    ensures |r| <= |parts|
  {
    if parts == [] then [] else (if parts[0] == [] then [] else [parts[0][0]]) + Heads(parts[1..])
  }

  function UpperAscii(c: char): (u: char)
    ensures !('a' <= u <= 'z')
    ensures !('a' <= c <= 'z') ==> u == c
    ensures 'a' <= c <= 'z' ==> u as int == c as int - 32 && 'A' <= u <= 'Z'
  {
    if 'a' <= c <= 'z' then (c as int - 32) as char else c
  }

  /** `toUpperCase()` on ASCII letters. */
  function ToUpper(s: string): (r: string)
    ensures |r| == |s| && forall k :: 0 <= k < |s| ==> r[k] == UpperAscii(s[k])
    ensures forall k :: 0 <= k < |r| ==> !('a' <= r[k] <= 'z')
  {
    seq(|s|, k requires 0 <= k < |s| => UpperAscii(s[k]))
  }

  /** `getInitials(name)`: one upper-cased character per non-empty word, in order. */
  function Initials(name: string): (r: string)
    ensures |r| <= SpaceCount(name) + 1
    ensures forall k :: 0 <= k < |r| ==> !('a' <= r[k] <= 'z')
  {
    ToUpper(Heads(SplitOnSpace(name)))
  }

  /** Splitting at a space splits the pieces. */
  lemma {:induction false} SplitAtSpace(a: string, b: string)
    ensures SplitOnSpace(a + " " + b) == SplitOnSpace(a) + SplitOnSpace(b)
  {
    if a == [] {
      assert a + " " + b == [' '] + b;
      assert ([' '] + b)[1..] == b;
    } else {
      assert (a + " " + b)[0] == a[0];
      assert (a + " " + b)[1..] == a[1..] + " " + b;
      SplitAtSpace(a[1..], b);
    }
  }

  lemma {:induction false} HeadsAppend(p: seq<string>, q: seq<string>)
    ensures Heads(p + q) == Heads(p) + Heads(q)
  {
    if p == [] {
      assert p + q == q;
    } else {
      assert (p + q)[1..] == p[1..] + q;
      HeadsAppend(p[1..], q);
    }
  }

  lemma ToUpperAppend(a: string, b: string)
    ensures ToUpper(a + b) == ToUpper(a) + ToUpper(b)
  {
  }

  /** The initials of two words joined by a space are the initials of each, in order; a
      doubled space adds an empty piece, which contributes nothing. */
  lemma InitialsOfPhrase(a: string, b: string)
    ensures Initials(a + " " + b) == Initials(a) + Initials(b)
  {
    SplitAtSpace(a, b);
    HeadsAppend(SplitOnSpace(a), SplitOnSpace(b));
    ToUpperAppend(Heads(SplitOnSpace(a)), Heads(SplitOnSpace(b)));
  }

  /** The empty name has empty initials; a single word gives its upper-cased first letter. */
  lemma InitialsOfWord(w: string)
    requires ' ' !in w
    ensures w == [] ==> Initials(w) == []
    ensures w != [] ==> Initials(w) == [UpperAscii(w[0])]
  {
    WordIsOnePiece(w);
    assert Heads([w]) == (if w == [] then [] else [w[0]]) by {
      assert [w][1..] == [];
    }
  }

  lemma {:induction false} WordIsOnePiece(w: string)
    requires ' ' !in w
    ensures SplitOnSpace(w) == [w]
  {
    if w != [] {
      assert ' ' !in w[1..];
      WordIsOnePiece(w[1..]);
      assert [w[0]] + w[1..] == w;
    }
  }
}
