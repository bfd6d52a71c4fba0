/** The display initials given to a new client: the first letter of the first
    word of the name and the first letter of its last word, upper-cased. */
module Initials {

  /** JavaScript's `s.split(' ')`: the pieces between single spaces, empty
      pieces included, so there is always at least one. */
  function Split(s: string): (r: seq<string>)
    ensures |r| == Spaces(s) + 1
    ensures forall i :: 0 <= i < |r| ==> ' ' !in r[i]
  {
    if s == [] then [[]]
    else
      var rest := Split(s[1..]);
      if s[0] == ' ' then [[]] + rest
      else [[s[0]] + rest[0]] + rest[1..]
  }

  /** Number of spaces in `s`. */
  function Spaces(s: string): nat
  {
    if s == [] then 0 else (if s[0] == ' ' then 1 else 0) + Spaces(s[1..])
  }

  /** The words joined back with single spaces: `ws.join(' ')`. */
  function Join(ws: seq<string>): string
    requires |ws| >= 1
  {
    if |ws| == 1 then ws[0] else ws[0] + [' '] + Join(ws[1..])
  }

  /** Splitting and joining again gives back the name. */
  lemma {:induction false} JoinSplit(s: string)
    ensures Join(Split(s)) == s
  {
    if s != [] {
      JoinSplit(s[1..]);
      var rest := Split(s[1..]);
      if s[0] != ' ' {
        var r := Split(s);
        assert r[0] == [s[0]] + rest[0];
        if |rest| == 1 {
          assert r == [[s[0]] + rest[0]];
        } else {
          assert r[1..] == rest[1..];
          assert Join(rest) == rest[0] + [' '] + Join(rest[1..]);
        }
      } else {
        assert Split(s)[1..] == rest;
      }
    }
  }

  /** A leading space starts a new, empty first piece. */
  lemma SplitAfterSpace(t: string)
    ensures Split([' '] + t) == [[]] + Split(t)
  {
    assert ([' '] + t)[1..] == t;
  }

  /** Any other leading character goes in front of the first piece. */
  lemma SplitAfterChar(c: char, t: string)
    requires c != ' '
    ensures Split([c] + t) == [[c] + Split(t)[0]] + Split(t)[1..]
  {
    assert ([c] + t)[1..] == t;
  }

  /** The first character of the first word comes first in the joined name. */
  lemma JoinFirstChar(ws: seq<string>)
    requires |ws| >= 1 && ws[0] != []
    ensures Join(ws) == [ws[0][0]] + Join([ws[0][1..]] + ws[1..])
  {
    var w, ws' := ws[0], [ws[0][1..]] + ws[1..];
    assert w == [w[0]] + w[1..];
    if |ws| > 1 {
      assert ws'[1..] == ws[1..];
    }
  }

  /** Joining words that hold no space and splitting again gives back the
      words. */
  lemma {:induction false} SplitJoin(ws: seq<string>)
    requires |ws| >= 1
    requires forall i :: 0 <= i < |ws| ==> ' ' !in ws[i]
    ensures Split(Join(ws)) == ws
    decreases |ws|, |ws[0]|
  {
    var w := ws[0];
    if w == [] {
      if |ws| > 1 {
        var tail := ws[1..];
        assert Join(ws) == [' '] + Join(tail);
        SplitJoin(tail);
        SplitAfterSpace(Join(tail));
        assert ws == [[]] + tail;
      }
    } else {
      var ws' := [w[1..]] + ws[1..];
      assert forall i :: 0 <= i < |ws'| ==> ' ' !in ws'[i] by {
        forall i | 0 <= i < |ws'| ensures ' ' !in ws'[i] {
          if i == 0 { assert forall c :: c in w[1..] ==> c in w; } else { assert ws'[i] == ws[i]; }
        }
      }
      SplitJoin(ws');
      JoinFirstChar(ws);
      SplitAfterChar(w[0], Join(ws'));
      assert w == [w[0]] + w[1..];
      assert ws == [w] + ws'[1..];
    }
  }

  /** ASCII upper-casing of one character; every other character is kept. */
  function UpperChar(c: char): (u: char)
    ensures 'a' <= c <= 'z' ==> 'A' <= u <= 'Z' && u as int == c as int - 32
    ensures !('a' <= c <= 'z') ==> u == c
  {
    if 'a' <= c <= 'z' then (c as int - 32) as char else c
  }

  /** `toUpperCase()`, restricted to ASCII letters. */
  function Upper(s: string): (r: string)
    ensures |r| == |s|
    ensures forall i :: 0 <= i < |s| ==> r[i] == UpperChar(s[i])
  {
    if s == [] then [] else [UpperChar(s[0])] + Upper(s[1..])
  }

  /** Upper-casing twice is upper-casing once. */
  lemma UpperIdempotent(s: string)
    ensures Upper(Upper(s)) == Upper(s)
  {
    var u := Upper(s);
    forall i | 0 <= i < |s| ensures Upper(u)[i] == u[i] {
      assert u[i] == UpperChar(s[i]);
    }
  }

  /** `s[0]` in string concatenation: the first character, or the text
      `undefined` for an empty string (which is what `undefined + x` gives). */
  function FirstOrUndefined(s: string): string
  {
    if s == [] then "undefined" else [s[0]]
  }

  /** `s?.[0] || ''`: the first character, or nothing for an empty string. */
  function FirstOrEmpty(s: string): string
  {
    if s == [] then "" else [s[0]]
  }

  /** `(name.split(' ')[0][0] + (name.split(' ').pop()?.[0] || '')).toUpperCase()`. */
  function InitialsOf(name: string): (r: string)
    ensures 1 <= |r| <= 10
  {
    var words := Split(name);
    Upper(FirstOrUndefined(words[0]) + FirstOrEmpty(words[|words| - 1]))
  }

  /** The initials of a name are decided by the first and the last piece of
      its split. */
  lemma InitialsOfPieces(name: string, ws: seq<string>)
    requires Split(name) == ws
    requires ws[0] != [] && ws[|ws| - 1] != []
    ensures InitialsOf(name) == [UpperChar(ws[0][0]), UpperChar(ws[|ws| - 1][0])]
  {
    var pair := [ws[0][0], ws[|ws| - 1][0]];
    assert FirstOrUndefined(ws[0]) == [pair[0]] && FirstOrEmpty(ws[|ws| - 1]) == [pair[1]];
    assert [pair[0]] + [pair[1]] == pair;
    var u := Upper(pair);
    assert u[0] == UpperChar(pair[0]) && u[1] == UpperChar(pair[1]);
  }

  /** A name of non-empty words separated by single spaces gets the first
      letter of its first word and of its last word. */
  lemma NameOfWords(ws: seq<string>)
    requires |ws| >= 1
    requires forall i :: 0 <= i < |ws| ==> ws[i] != [] && ' ' !in ws[i]
    ensures InitialsOf(Join(ws)) == [UpperChar(ws[0][0]), UpperChar(ws[|ws| - 1][0])]
  {
    SplitJoin(ws);
    InitialsOfPieces(Join(ws), ws);
  }

  /** A seed client, built the way a new client would be. */
  lemma TwoWordSeedClient()
    ensures InitialsOf("Maria Oliveira") == "MO"
  {
    var a, b := "Maria", "Oliveira";
    assert Join([b]) == b;
    assert Join([a, b]) == a + [' '] + b;
    assert a + [' '] + b == "Maria Oliveira";
    NameOfWords([a, b]);
  }

  /** A one-word name gets its first letter twice. */
  lemma OneWordRepeatsLetter(w: string)
    requires w != [] && ' ' !in w
    ensures InitialsOf(w) == [UpperChar(w[0]), UpperChar(w[0])]
  {
    NameOfWords([w]);
  }

  /** Initials are always in upper case. */
  lemma InitialsAreUpper(name: string)
    ensures Upper(InitialsOf(name)) == InitialsOf(name)
  {
    var words := Split(name);
    UpperIdempotent(FirstOrUndefined(words[0]) + FirstOrEmpty(words[|words| - 1]));
  }

  /** A name that starts with a space, or is empty, gets the text `UNDEFINED`
      in front: the first piece of the split is empty. */
  lemma LeadingSpaceGivesUndefined(name: string)
    requires name == [] || name[0] == ' '
    ensures InitialsOf(name)[..9] == "UNDEFINED"
  {
    var words := Split(name);
    assert words[0] == [];
    UndefinedInFront(name, words);
  }

  /** An empty first piece puts the upper-cased text `undefined` in front. */
  lemma UndefinedInFront(name: string, ws: seq<string>)
    requires Split(name) == ws && ws[0] == []
    ensures InitialsOf(name)[..9] == "UNDEFINED"
  {
    var u, rest := "undefined", FirstOrEmpty(ws[|ws| - 1]);
    var r := InitialsOf(name);
    assert r == Upper(u + rest);
    forall i | 0 <= i < 9 ensures r[i] == UpperChar(u[i]) {
      assert (u + rest)[i] == u[i];
    }
  }

  /** A name that ends with a space gets only one letter, from its first
      word. */
  lemma TrailingSpaceDropsLastLetter(name: string)
    requires name != [] && name[0] != ' ' && name[|name| - 1] == ' '
    ensures InitialsOf(name) == [UpperChar(name[0])]
  {
    JoinSplit(name);
    var words := Split(name);
    var last := words[|words| - 1];
    var p := JoinLastWord(words);
    if last != [] {
      assert false;
    }
    var q := JoinFirstWord(words);
    if words[0] == [] {
      assert false;
    }
    assert name[0] == words[0][0];
  }

  /** The joined name ends with the last word. */
  lemma {:induction false} JoinLastWord(ws: seq<string>) returns (p: string)
    requires |ws| >= 1
    ensures Join(ws) == p + ws[|ws| - 1]
  {
    if |ws| > 1 {
      var p' := JoinLastWord(ws[1..]);
      p := ws[0] + [' '] + p';
    } else {
      p := [];
    }
  }

  /** The joined name starts with the first word, then a space or nothing. */
  lemma JoinFirstWord(ws: seq<string>) returns (q: string)
    requires |ws| >= 1
    ensures Join(ws) == ws[0] + q && (q == [] || q[0] == ' ')
  {
    if |ws| > 1 {
      q := [' '] + Join(ws[1..]);
    } else {
      q := [];
    }
  }
}
