/** The prompt preprocessing of the legal chatbot: normalise whitespace, then
    split on single spaces. */
module LegalPreprocess {
  import opened Text

  /** At most single spaces: the only whitespace character is ' ', and no
      space is followed by another. */
  predicate SingleSpaced(s: string) {
    s == [] || (
      && (IsSpace(s[0]) ==> s[0] == ' ' && (|s| == 1 || s[1] != ' '))
      && SingleSpaced(s[1..]))
  }

  /** The non-whitespace characters of `s`, in order. */
  function NonSpace(s: string): string {
    if s == [] then [] else (if IsSpace(s[0]) then [] else [s[0]]) + NonSpace(s[1..])
  }

  lemma {:induction false} NonSpaceAppend(a: string, b: string)
    ensures NonSpace(a + b) == NonSpace(a) + NonSpace(b)
  {
    if a != [] {
      var head := if IsSpace(a[0]) then [] else [a[0]];
      calc {
        NonSpace(a + b);
        { assert (a + b)[0] == a[0] && (a + b)[1..] == a[1..] + b; }
        head + NonSpace(a[1..] + b);
        { NonSpaceAppend(a[1..], b); }
        head + (NonSpace(a[1..]) + NonSpace(b));
        (head + NonSpace(a[1..])) + NonSpace(b);
      }
    } else {
      assert a + b == b;
    }
  }

  lemma {:induction false} NonSpaceOfSpaces(s: string)
    requires AllSpace(s)
    ensures NonSpace(s) == []
  {
    if s != [] {
      NonSpaceOfSpaces(s[1..]);
    }
  }

  /** `re.sub(r"\s+", " ", s)`: every maximal run of whitespace becomes one space. */
  function CollapseSpaces(s: string): (r: string)
    ensures |r| <= |s| && (r == [] <==> s == [])
    ensures s != [] && !IsSpace(s[0]) ==> r[0] == s[0]
    decreases |s|
  {
    if s == [] then []
    else if IsSpace(s[0]) then
      assert TrimStart(s) == TrimStart(s[1..]);
      " " + CollapseSpaces(TrimStart(s))
    else
      [s[0]] + CollapseSpaces(s[1..])
  }

  /** One more character in front keeps single spacing, provided a space is
      not followed by another. */
  lemma SingleSpacedCons(c: char, x: string)
    requires SingleSpaced(x)
    requires IsSpace(c) ==> c == ' ' && (x == [] || x[0] != ' ')
    ensures SingleSpaced([c] + x)
  {
    assert ([c] + x)[1..] == x;
  }

  /** The collapse leaves single spaces only. */
  lemma {:induction false} CollapseSingleSpacedResult(s: string)
    ensures SingleSpaced(CollapseSpaces(s))
    decreases |s|
  {
    if s != [] {
      if IsSpace(s[0]) {
        var t := TrimStart(s);
        assert t == TrimStart(s[1..]);
        CollapseSingleSpacedResult(t);
        SingleSpacedCons(' ', CollapseSpaces(t));
      } else {
        CollapseSingleSpacedResult(s[1..]);
        SingleSpacedCons(s[0], CollapseSpaces(s[1..]));
      }
    }
  }

  /** A last character that is not whitespace survives the collapse in last place. */
  lemma {:induction false} CollapseLast(s: string)
    ensures s != [] && !IsSpace(s[|s| - 1]) ==>
      CollapseSpaces(s)[|CollapseSpaces(s)| - 1] == s[|s| - 1]
    decreases |s|
  {
    if s == [] || IsSpace(s[|s| - 1]) {
    } else if IsSpace(s[0]) {
      var t := TrimStart(s);
      assert t == TrimStart(s[1..]);
      assert t[|t| - 1] == s[|s| - 1];
      CollapseLast(t);
    } else if |s| > 1 {
      CollapseLast(s[1..]);
    }
  }

  /** Text without whitespace at its ends keeps that after the collapse. */
  lemma CollapseStripped(t: string)
    requires Stripped(t)
    ensures Stripped(CollapseSpaces(t))
  {
    CollapseLast(t);
  }

  /** The collapse keeps every non-whitespace character, in order. */
  lemma {:induction false} CollapseNonSpace(s: string)
    ensures NonSpace(CollapseSpaces(s)) == NonSpace(s)
    decreases |s|
  {
    if s != [] {
      if IsSpace(s[0]) {
        var t := TrimStart(s);
        assert t == TrimStart(s[1..]);
        NonSpaceTrimStart(s);
        CollapseNonSpace(t);
        NonSpaceAppend(" ", CollapseSpaces(t));
      } else {
        CollapseNonSpace(s[1..]);
        NonSpaceAppend([s[0]], CollapseSpaces(s[1..]));
      }
    }
  }

  /** In single-spaced text a leading space is alone. */
  lemma SingleSpaceTrim(s: string)
    requires s != [] && SingleSpaced(s) && IsSpace(s[0])
    ensures s[0] == ' ' && TrimStart(s) == s[1..]
  {
    var t := s[1..];
    if t != [] {
      assert t[0] == s[1];
      assert !IsSpace(t[0]);
    }
    assert TrimStart(t) == t;
  }

  /** Text already in normal form is left alone by the whitespace collapse. */
  lemma {:induction false} CollapseSingleSpaced(s: string)
    requires SingleSpaced(s)
    ensures CollapseSpaces(s) == s
  {
    if s != [] {
      CollapseSingleSpaced(s[1..]);
      if IsSpace(s[0]) {
        SingleSpaceTrim(s);
        assert s == " " + s[1..];
        assert CollapseSpaces(s) == " " + s[1..];
      } else {
        assert s == [s[0]] + s[1..];
        assert CollapseSpaces(s) == [s[0]] + s[1..];
      }
    }
  }

  /** `lstrip` skips a whitespace run up to the first other character. */
  lemma {:induction false} TrimStartRun(w: string, b: string)
    requires AllSpace(w) && (b == [] || !IsSpace(b[0]))
    ensures TrimStart(w + b) == b
  {
    if w == [] {
      assert w + b == b;
    } else {
      assert (w + b)[0] == w[0];
      assert (w + b)[1..] == w[1..] + b;
      TrimStartRun(w[1..], b);
    }
  }

  /** Text ending in a non-whitespace character shields what follows from `lstrip`. */
  lemma {:induction false} TrimStartAppend(a: string, b: string)
    requires a != [] && !IsSpace(a[|a| - 1])
    ensures TrimStart(a + b) == TrimStart(a) + b
  {
    assert (a + b)[0] == a[0];
    if IsSpace(a[0]) {
      assert (a + b)[1..] == a[1..] + b;
      TrimStartAppend(a[1..], b);
    }
  }

  /** Cutting after a non-whitespace character does not change the collapse:
      no whitespace run spans the cut. */
  lemma {:induction false} CollapseAppend(a: string, b: string)
    requires a == [] || !IsSpace(a[|a| - 1])
    ensures CollapseSpaces(a + b) == CollapseSpaces(a) + CollapseSpaces(b)
    decreases |a|
  {
    if a == [] {
      assert a + b == b;
      assert CollapseSpaces(a) == [];
      assert CollapseSpaces(a + b) == CollapseSpaces(a) + CollapseSpaces(b);
    } else if IsSpace(a[0]) {
      var t := TrimStart(a);
      TrimStartAppend(a, b);
      assert t != [] && t[|t| - 1] == a[|a| - 1];
      CollapseAppend(t, b);
      assert (a + b)[0] == a[0];
      assert CollapseSpaces(a + b) == " " + CollapseSpaces(t + b);
      assert CollapseSpaces(a) == " " + CollapseSpaces(t);
      Associate(" ", CollapseSpaces(t), CollapseSpaces(b));
    } else {
      assert (a + b)[0] == a[0] && (a + b)[1..] == a[1..] + b;
      CollapseAppend(a[1..], b);
      assert CollapseSpaces(a + b) == [a[0]] + CollapseSpaces(a[1..] + b);
      assert CollapseSpaces(a) == [a[0]] + CollapseSpaces(a[1..]);
      Associate([a[0]], CollapseSpaces(a[1..]), CollapseSpaces(b));
    }
  }

  /** A whitespace run between two words becomes exactly one space: the words
      stay apart and nothing else changes. */
  lemma CollapseSeparates(a: string, w: string, b: string)
    requires a == [] || !IsSpace(a[|a| - 1])
    requires w != [] && AllSpace(w)
    requires b == [] || !IsSpace(b[0])
    ensures CollapseSpaces(a + w + b) == CollapseSpaces(a) + " " + CollapseSpaces(b)
  {
    var ca, cb := CollapseSpaces(a), CollapseSpaces(b);
    Associate(a, w, b);
    CollapseAppend(a, w + b);
    assert CollapseSpaces(w + b) == " " + cb by {
      TrimStartRun(w, b);
      assert (w + b)[0] == w[0];
    }
    Associate(ca, " ", cb);
  }

  /** Text without whitespace is single-spaced. */
  lemma {:induction false} NoSpaceSingleSpaced(x: string)
    requires forall i :: 0 <= i < |x| ==> !IsSpace(x[i])
    ensures SingleSpaced(x)
  {
    if x != [] {
      NoSpaceSingleSpaced(x[1..]);
    }
  }

  /** Trimming removes whitespace only. */
  lemma NonSpaceTrimStart(s: string)
    ensures NonSpace(TrimStart(s)) == NonSpace(s)
  {
    var t := TrimStart(s);
    var k := |s| - |t|;
    assert s == s[..k] + t;
    SpaceRunSlice(s, 0, k);
    NonSpaceAppend(s[..k], t);
    NonSpaceOfSpaces(s[..k]);
  }

  lemma NonSpaceTrimEnd(s: string)
    ensures NonSpace(TrimEnd(s)) == NonSpace(s)
  {
    var r := TrimEnd(s);
    assert s == r + s[|r|..];
    SpaceRunSlice(s, |r|, |s|);
    NonSpaceAppend(r, s[|r|..]);
    NonSpaceOfSpaces(s[|r|..]);
  }

  /** Stripping removes whitespace only. */
  lemma StripNonSpace(text: string)
    ensures NonSpace(Strip(text)) == NonSpace(text)
  {
    NonSpaceTrimStart(text);
    NonSpaceTrimEnd(TrimStart(text));
  }

  /** `clean_text`: strip, then collapse whitespace runs. */
  function CleanText(text: string): (r: string)
    ensures Stripped(r) && SingleSpaced(r)
    ensures r == [] <==> AllSpace(text)
  {
    var t := Strip(text);
    CollapseSingleSpacedResult(t);
    CollapseStripped(t);
    CollapseSpaces(t)
  }

  /** Cleaning changes whitespace only: the other characters stay, in order. */
  lemma CleanTextKeepsCharacters(text: string)
    ensures NonSpace(CleanText(text)) == NonSpace(text)
  {
    CollapseNonSpace(Strip(text));
    StripNonSpace(text);
  }

  lemma CleanTextIdempotent(text: string)
    ensures CleanText(CleanText(text)) == CleanText(text)
  {
    var r := CleanText(text);
    StripStripped(r);
    CollapseSingleSpaced(r);
  }

  /** Two pieces of stripped text joined by any whitespace run clean to their
      cleaned forms joined by exactly one space. */
  lemma CleanTextSeparates(a: string, w: string, b: string)
    requires a != [] && Stripped(a) && b != [] && Stripped(b)
    requires w != [] && AllSpace(w)
    ensures CleanText(a + w + b) == CleanText(a) + " " + CleanText(b)
  {
    var s := a + w + b;
    assert s[0] == a[0] && s[|s| - 1] == b[|b| - 1];
    StripStripped(s);
    StripStripped(a);
    StripStripped(b);
    CollapseSeparates(a, w, b);
  }

  /** `" ".join(tokens)`. */
  function Join(tokens: seq<string>): string {
    if tokens == [] then ""
    else if |tokens| == 1 then tokens[0]
    else tokens[0] + " " + Join(tokens[1..])
  }

  /** `text.split(" ")`: the pieces between single spaces, empty ones included. */
  function Tokenize(text: string): (tokens: seq<string>)
    ensures tokens != []
    ensures forall k :: 0 <= k < |tokens| ==> ' ' !in tokens[k]
  {
    if text == [] then [""]
    else
      var rest := Tokenize(text[1..]);
      if text[0] == ' ' then [""] + rest
      else [[text[0]] + rest[0]] + rest[1..]
  }

  /** One token more than there are spaces. */
  lemma {:induction false} TokenizeCount(text: string)
    ensures |Tokenize(text)| == multiset(text)[' '] + 1
  {
    if text != [] {
      TokenizeCount(text[1..]);
      assert text == [text[0]] + text[1..];
      assert multiset(text) == multiset{text[0]} + multiset(text[1..]);
    }
  }

  /** Joining the tokens with single spaces gives the text back. */
  lemma {:induction false} JoinTokenize(text: string)
    ensures Join(Tokenize(text)) == text
  {
    if text != [] {
      var rest := Tokenize(text[1..]);
      JoinTokenize(text[1..]);
      if text[0] != ' ' && |rest| > 1 {
        assert Join(rest) == rest[0] + " " + Join(rest[1..]);
      }
    }
  }

  /** Prepending space-free text extends the first token. */
  lemma {:induction false} TokenizeSpaceFreePrefix(t: string, rest: string)
    requires ' ' !in t
    ensures Tokenize(t + rest) == [t + Tokenize(rest)[0]] + Tokenize(rest)[1..]
  {
    if t != [] {
      assert (t + rest)[0] == t[0] && t[0] != ' ';
      assert (t + rest)[1..] == t[1..] + rest;
      TokenizeSpaceFreePrefix(t[1..], rest);
      var r := Tokenize(t[1..] + rest);
      assert Tokenize(t + rest) == [[t[0]] + r[0]] + r[1..];
      assert [t[0]] + (t[1..] + Tokenize(rest)[0]) == t + Tokenize(rest)[0];
    } else {
      assert t + rest == rest && t + Tokenize(rest)[0] == Tokenize(rest)[0];
    }
  }

  /** A space splits the text into the tokens of each side. */
  lemma {:induction false} TokenizeAtSpace(x: string, y: string)
    ensures Tokenize(x + " " + y) == Tokenize(x) + Tokenize(y)
  {
    var s := x + " " + y;
    if x == [] {
      assert s[0] == ' ' && s[1..] == y;
    } else {
      assert s[0] == x[0] && s[1..] == x[1..] + " " + y;
      TokenizeAtSpace(x[1..], y);
    }
  }

  /** Splitting a join of space-free tokens gives the tokens back. */
  lemma {:induction false} TokenizeJoin(tokens: seq<string>)
    requires tokens != []
    requires forall k :: 0 <= k < |tokens| ==> ' ' !in tokens[k]
    ensures Tokenize(Join(tokens)) == tokens
  {
    if |tokens| == 1 {
      TokenizeSpaceFreePrefix(tokens[0], "");
      assert tokens[0] + "" == tokens[0];
    } else {
      var tail := Join(tokens[1..]);
      var spaced := " " + tail;
      assert Join(tokens) == tokens[0] + spaced;
      TokenizeJoin(tokens[1..]);
      assert Tokenize(spaced) == [""] + tokens[1..] by {
        assert spaced[0] == ' ' && spaced[1..] == tail;
      }
      TokenizeSpaceFreePrefix(tokens[0], spaced);
      assert tokens[0] + "" == tokens[0];
      assert tokens == [tokens[0]] + tokens[1..];
    }
  }

  /** After the first, no token of text without double spaces and without a
      trailing space is empty. */
  lemma {:induction false} LaterTokensNonEmpty(text: string)
    requires SingleSpaced(text) && (text == [] || text[|text| - 1] != ' ')
    ensures forall k :: 1 <= k < |Tokenize(text)| ==> Tokenize(text)[k] != []
  {
    if text != [] {
      LaterTokensNonEmpty(text[1..]);
    }
  }

  /** Tokens contain no whitespace when ' ' is the only whitespace in the text. */
  lemma {:induction false} TokensSpaceFree(text: string)
    requires SingleSpaced(text)
    ensures forall k, i :: 0 <= k < |Tokenize(text)| && 0 <= i < |Tokenize(text)[k]| ==>
      !IsSpace(Tokenize(text)[k][i])
  {
    if text != [] {
      TokensSpaceFree(text[1..]);
      var rest := Tokenize(text[1..]);
      if text[0] != ' ' {
        assert forall i :: 0 <= i < |rest[0]| ==> ([text[0]] + rest[0])[i + 1] == rest[0][i];
      }
    }
  }

  /** Cleaned text that is not empty splits into words: no empty token and no
      whitespace inside one. */
  lemma TokensOfClean(text: string)
    requires Stripped(text) && SingleSpaced(text)
    ensures text != [] ==> forall k :: 0 <= k < |Tokenize(text)| ==>
      Tokenize(text)[k] != [] && forall i :: 0 <= i < |Tokenize(text)[k]| ==> !IsSpace(Tokenize(text)[k][i])
  {
    LaterTokensNonEmpty(text);
    TokensSpaceFree(text);
    if text != [] {
      assert text[0] != ' ';
      assert Tokenize(text)[0] != [];
    }
  }

  /** `preprocess_prompt`: clean, then tokenize. */
  function PreprocessPrompt(prompt: string): (tokens: seq<string>)
    ensures AllSpace(prompt) ==> tokens == [""]
    ensures !AllSpace(prompt) ==>
      forall k :: 0 <= k < |tokens| ==> tokens[k] != [] && forall i :: 0 <= i < |tokens[k]| ==> !IsSpace(tokens[k][i])
    ensures Join(tokens) == CleanText(prompt)
  {
    var cleaned := CleanText(prompt);
    JoinTokenize(cleaned);
    TokensOfClean(cleaned);
    Tokenize(cleaned)
  }

  /** A prompt without whitespace is one token. */
  lemma PreprocessPromptWord(x: string)
    requires x != [] && forall i :: 0 <= i < |x| ==> !IsSpace(x[i])
    ensures PreprocessPrompt(x) == [x]
  {
    assert Stripped(x);
    StripStripped(x);
    NoSpaceSingleSpaced(x);
    CollapseSingleSpaced(x);
    TokenizeJoin([x]);
  }

  /** Words separated by whitespace land in separate tokens: the tokens of
      `a + w + b` are those of `a` followed by those of `b`. */
  lemma PreprocessPromptSeparates(a: string, w: string, b: string)
    requires a != [] && Stripped(a) && b != [] && Stripped(b)
    requires w != [] && AllSpace(w)
    ensures PreprocessPrompt(a + w + b) == PreprocessPrompt(a) + PreprocessPrompt(b)
  {
    CleanTextSeparates(a, w, b);
    TokenizeAtSpace(CleanText(a), CleanText(b));
  }
}
