/** What topic.go and similarity.go read off a written phrase, stated on its words, what surrounds them and the gaps
    between them. */
module Phrases {
  import opened Text
  import Topic
  import Similarity

  /** One word of a phrase: what hugs it on either side, and the gap behind it. */
  datatype Word = Word(before: string, core: string, after: string, gap: string)

  function Piece(w: Word): string {
    w.before + (w.core + w.after)
  }

  function Pieces(ws: seq<Word>): (ps: seq<string>)
    ensures |ps| == |ws|
  {
    seq(|ws|, i requires 0 <= i < |ws| => Piece(ws[i]))
  }

  function Phrase(ws: seq<Word>): string {
    if ws == [] then "" else Piece(ws[0]) + (ws[0].gap + Phrase(ws[1..]))
  }

  /** t is s in lower case. */
  ghost predicate InLowerCase(t: string, s: string) {
    && |t| == |s|
    && forall i :: 0 <= i < |s| ==> t[i] as int == if 'A' <= s[i] <= 'Z' then s[i] as int + 32 else s[i] as int
  }

  // ---- fields ----

  /** Gaps are made of separators and words are not, and only the last gap may be missing. */
  ghost predicate Spaced(ws: seq<Word>, sep: char -> bool) {
    && (forall i :: 0 <= i < |ws| ==> Piece(ws[i]) != "" && NoneIn(Piece(ws[i]), sep) && AllIn(ws[i].gap, sep))
    && (forall i :: 0 <= i < |ws| - 1 ==> ws[i].gap != "")
  }

  ghost predicate AllIn(s: string, sep: char -> bool) {
    forall i :: 0 <= i < |s| ==> sep(s[i])
  }

  ghost predicate NoneIn(s: string, sep: char -> bool) {
    forall i :: 0 <= i < |s| ==> !sep(s[i])
  }

  lemma {:induction false} FieldsSkip(a: string, s: string, sep: char -> bool)
    requires AllIn(a, sep)
    ensures FieldsFunc(a + s, sep) == FieldsFunc(s, sep)
  {
    if a == "" {
      assert a + s == s;
    } else {
      assert (a + s)[1..] == a[1..] + s;
      FieldsSkip(a[1..], s, sep);
    }
  }

  lemma FieldsFirst(w: string, s: string, sep: char -> bool)
    requires w != "" && NoneIn(w, sep) && (s == "" || sep(s[0]))
    ensures FieldsFunc(w + s, sep) == [w] + FieldsFunc(s, sep)
  {
    hide FieldsFunc;
    WordLengthIs(w + s, |w|, sep);
    assert (w + s)[..|w|] == w && (w + s)[|w|..] == s;
    FieldsStep(w + s, sep);
  }

  lemma FieldsStep(s: string, sep: char -> bool)
    requires s != "" && !sep(s[0])
    ensures var n := WordLength(s, sep); FieldsFunc(s, sep) == [s[..n]] + FieldsFunc(s[n..], sep)
  {
  }

  lemma {:induction false} FieldsOfPhrase(ws: seq<Word>, sep: char -> bool)
    requires Spaced(ws, sep)
    ensures FieldsFunc(Phrase(ws), sep) == Pieces(ws)
  {
    hide FieldsFunc;
    if ws == [] {
      NoFields(sep);
    } else {
      var rest := ws[0].gap + Phrase(ws[1..]);
      FieldsOfPhrase(ws[1..], sep);
      FieldsSkip(ws[0].gap, Phrase(ws[1..]), sep);
      if ws[0].gap == "" { assert ws[1..] == []; }
      FieldsFirst(Piece(ws[0]), rest, sep);
      assert Pieces(ws) == [Piece(ws[0])] + Pieces(ws[1..]);
    }
  }

  lemma NoFields(sep: char -> bool)
    ensures FieldsFunc("", sep) == []
  {
  }

  lemma {:induction false} FieldsTrail(s: string, b: string, sep: char -> bool)
    requires AllIn(b, sep)
    ensures FieldsFunc(s + b, sep) == FieldsFunc(s, sep)
    decreases |s|
  {
    if s == "" {
      FieldsSkip(b, "", sep);
      assert s + b == b + "";
    } else if sep(s[0]) {
      assert (s + b)[1..] == s[1..] + b;
      FieldsTrail(s[1..], b, sep);
    } else {
      var n := WordLength(s, sep);
      var w, rest := s[..n], s[n..];
      assert s == w + rest && s + b == w + (rest + b);
      WordIsClear(s, sep);
      FieldsFirst(w, rest, sep);
      FieldsFirst(w, rest + b, sep);
      FieldsTrail(rest, b, sep);
    }
  }

  lemma {:induction false} WordIsClear(s: string, sep: char -> bool)
    ensures NoneIn(s[..WordLength(s, sep)], sep)
  {
    if s != "" && !sep(s[0]) {
      WordIsClear(s[1..], sep);
      var n := WordLength(s, sep);
      forall i | 0 <= i < n ensures !sep(s[..n][i]) {
        if i > 0 { assert s[..n][i] == s[1..][..n - 1][i - 1]; }
      }
    }
  }

  /** Trimming blanks changes no field where blanks separate. */
  lemma FieldsOfTrimmed(s: string, sep: char -> bool)
    requires forall c :: IsSpace(c) ==> sep(c)
    ensures FieldsFunc(TrimSpace(s), sep) == FieldsFunc(s, sep)
  {
    hide FieldsFunc, TrimLeft, TrimRight;
    var from := TrimLeftCuts(s, IsSpace);
    var t := s[from..];
    var to := TrimRightCuts(t, IsSpace);
    assert s == s[..from] + t && t == t[..to] + t[to..];
    FieldsSkip(s[..from], t, sep);
    FieldsTrail(t[..to], t[to..], sep);
  }

  function Lowered(ss: seq<string>): (ls: seq<string>)
    ensures |ls| == |ss|
  {
    seq(|ss|, i requires 0 <= i < |ss| => ToLower(ss[i]))
  }

  lemma LowerAppend(a: string, b: string)
    ensures ToLower(a + b) == ToLower(a) + ToLower(b)
  {
  }

  /** Case does not separate. */
  lemma {:induction false} FieldsOfLower(s: string, sep: char -> bool)
    requires forall c :: sep(Lower(c)) <==> sep(c)
    ensures FieldsFunc(ToLower(s), sep) == Lowered(FieldsFunc(s, sep))
    decreases |s|
  {
    hide FieldsFunc;
    if s == "" {
      NoFields(sep);
    } else if sep(s[0]) {
      LowerAppend(s[..1], s[1..]);
      assert s == s[..1] + s[1..];
      FieldsSkip(s[..1], s[1..], sep);
      FieldsSkip(ToLower(s[..1]), ToLower(s[1..]), sep);
      FieldsOfLower(s[1..], sep);
    } else {
      var n := WordLength(s, sep);
      var w, rest := s[..n], s[n..];
      assert s == w + rest;
      LowerAppend(w, rest);
      WordIsClear(s, sep);
      FieldsFirst(w, rest, sep);
      FieldsFirst(ToLower(w), ToLower(rest), sep);
      FieldsOfLower(rest, sep);
    }
  }

  // ---- topic tokens ----

  predicate IsLetterOrDigit(c: char) {
    'a' <= c <= 'z' || 'A' <= c <= 'Z' || '0' <= c <= '9'
  }

  /** A word as topic phrases have them: letters and digits, with hyphens, dots, underscores, slashes and apostrophes
      inside and around it; the possessive may follow. */
  ghost predicate TopicWord(w: Word) {
    && w.core != "" && IsLetterOrDigit(w.core[0]) && IsLetterOrDigit(w.core[|w.core| - 1])
    && (forall i :: 0 <= i < |w.core| ==> IsLetterOrDigit(w.core[i]) || w.core[i] in "-._/'")
    && (forall i :: 0 <= i < |w.before| ==> w.before[i] in "-._/'")
    && (forall i :: 0 <= i < |w.gap| ==> !IsLetterOrDigit(w.gap[i]) && w.gap[i] !in "-._/'")
    && ((Cuts(w.after) && !Possessive(w.core)) || ("'s" <= w.after && Cuts(w.after[2..])))
  }

  ghost predicate Cuts(s: string) {
    forall i :: 0 <= i < |s| ==> s[i] in "-._/'"
  }

  ghost predicate Possessive(s: string) {
    |s| >= 2 && s[|s| - 2] == '\'' && (s[|s| - 1] == 's' || s[|s| - 1] == 'S')
  }

  lemma TopicPiece(w: Word)
    requires TopicWord(w)
    ensures Piece(w) != "" && NoneIn(Piece(w), Topic.IsSeparator) && AllIn(w.gap, Topic.IsSeparator)
  {
  }

  lemma LowerKeeps(s: string)
    ensures InLowerCase(ToLower(s), s)
    ensures Cuts(s) ==> ToLower(s) == s
  {
  }

  /** Cleaning a word leaves its core. */
  lemma CleanedCore(w: Word)
    requires TopicWord(w)
    ensures Topic.CleanField(ToLower(Piece(w))) == ToLower(w.core) != ""
  {
    hide Topic.CleanField, TopicWord;
    TopicCore(w);
    PieceParts(w);
    if Cuts(w.after) && !Possessive(w.core) {
      LowerKeeps(w.after);
      CleanedPlain(w.before, ToLower(w.core), w.after);
    } else {
      var rest := w.after[2..];
      LowerPossessive(rest);
      assert w.after == "'s" + rest;
      CleanedPossessive(w.before, ToLower(w.core), rest);
    }
  }

  lemma TopicCore(w: Word)
    requires TopicWord(w)
    ensures var t := ToLower(w.core);
            && t != "" && !Topic.IsCut(t[0]) && !Topic.IsCut(t[|t| - 1])
            && (HasSuffix(t, "'s") <==> Possessive(w.core)) && Cuts(w.before)
            && ((Cuts(w.after) && !Possessive(w.core)) || ("'s" <= w.after && Cuts(w.after[2..])))
  {
    hide ToLower, HasSuffix;
    LowerKeeps(w.core);
    PossessiveIff(ToLower(w.core), w.core);
    EndsLetters(ToLower(w.core), w.core);
  }

  lemma PossessiveIff(t: string, s: string)
    requires InLowerCase(t, s)
    ensures HasSuffix(t, "'s") <==> Possessive(s)
  {
    Topic.LastChars(t);
  }

  lemma EndsLetters(t: string, s: string)
    requires InLowerCase(t, s) && s != "" && IsLetterOrDigit(s[0]) && IsLetterOrDigit(s[|s| - 1])
    ensures t != "" && !Topic.IsCut(t[0]) && !Topic.IsCut(t[|t| - 1])
  {
    var first, last := t[0], t[|t| - 1];
    assert IsLetterOrDigit(first) && IsLetterOrDigit(last);
  }

  lemma PieceParts(w: Word)
    requires Cuts(w.before)
    ensures ToLower(Piece(w)) == w.before + (ToLower(w.core) + ToLower(w.after))
  {
    hide ToLower;
    LowerKeeps(w.before);
    LowerAppend(w.before, w.core + w.after);
    LowerAppend(w.core, w.after);
  }

  lemma LowerPossessive(rest: string)
    requires Cuts(rest)
    ensures ToLower("'s" + rest) == "'s" + rest
  {
  }

  lemma CleanedPlain(before: string, core: string, after: string)
    requires core != "" && !Topic.IsCut(core[0]) && !Topic.IsCut(core[|core| - 1]) && !HasSuffix(core, "'s")
    requires Cuts(before) && Cuts(after)
    ensures Topic.CleanField(before + (core + after)) == core
  {
    hide Trim;
    TrimsTo(before, core, after, Topic.IsCut);
  }

  lemma CleanedPossessive(before: string, core: string, rest: string)
    requires core != "" && !Topic.IsCut(core[0])
    requires Cuts(before) && Cuts(rest)
    ensures Topic.CleanField(before + (core + ("'s" + rest))) == core
  {
    hide Trim;
    var owned := core + "'s";
    assert core + ("'s" + rest) == owned + rest;
    TrimsTo(before, owned, rest, Topic.IsCut);
    assert owned[..|core|] == core && owned[|core|..] == "'s";
  }

  /** Trimming takes off exactly what is made of trimmed characters. */
  lemma TrimsTo(a: string, m: string, b: string, cut: char -> bool)
    requires AllIn(a, cut) && AllIn(b, cut) && m != "" && !cut(m[0]) && !cut(m[|m| - 1])
    ensures Trim(a + (m + b), cut) == m
  {
    TrimAround(a, m, b, cut);
    var from := TrimLeftCuts(a, cut);
    var to := TrimRightCuts(b, cut);
  }

  lemma {:induction false} CleanedAll(fs: seq<string>, cs: seq<string>)
    requires |fs| == |cs| && forall i :: 0 <= i < |fs| ==> Topic.CleanField(fs[i]) == cs[i] != ""
    ensures Topic.CleanFields(fs) == cs
  {
    if fs != [] {
      CleanedAll(fs[1..], cs[1..]);
      assert cs == [cs[0]] + cs[1..];
    }
  }

  /** The tokens of a phrase are its words, in order and in lower case, without what hugs them and without the
      possessive; whatever else lies between them only separates. */
  lemma TokensOfPhrase(lead: string, ws: seq<Word>)
    requires forall i :: 0 <= i < |ws| ==> TopicWord(ws[i]) && (i < |ws| - 1 ==> ws[i].gap != "")
    requires forall i :: 0 <= i < |lead| ==> !IsLetterOrDigit(lead[i]) && lead[i] !in "-._/'"
    ensures var ts := Topic.Tokens(lead + Phrase(ws));
            |ts| == |ws| && forall i :: 0 <= i < |ws| ==> InLowerCase(ts[i], ws[i].core)
  {
    hide FieldsFunc, TrimSpace, ToLower, Phrase, TopicWord;
    var raw, sep := lead + Phrase(ws), Topic.IsSeparator;
    forall i | 0 <= i < |ws|
      ensures Piece(ws[i]) != "" && NoneIn(Piece(ws[i]), sep) && AllIn(ws[i].gap, sep)
    {
      TopicPiece(ws[i]);
    }
    FieldsOfPhrase(ws, sep);
    FieldsSkip(lead, Phrase(ws), sep);
    FieldsOfTrimmed(raw, sep);
    FieldsOfLower(TrimSpace(raw), sep);
    var fs, cores := Lowered(Pieces(ws)), seq(|ws|, i requires 0 <= i < |ws| => ToLower(ws[i].core));
    forall i | 0 <= i < |ws|
      ensures Topic.CleanField(fs[i]) == cores[i] != "" && InLowerCase(cores[i], ws[i].core)
    {
      CleanedCore(ws[i]);
      LowerKeeps(ws[i].core);
    }
    CleanedAll(fs, cores);
  }

  // ---- content words ----

  /** A word as statements have them: no blank in it, punctuation around it, none at its ends. */
  ghost predicate StatementWord(w: Word) {
    && w.core != "" && w.core[0] !in ".,;:!?\"'()[]{}" && w.core[|w.core| - 1] !in ".,;:!?\"'()[]{}"
    && (forall i :: 0 <= i < |w.core| ==> !Blank(w.core[i]))
    && (forall i :: 0 <= i < |w.before| ==> w.before[i] in ".,;:!?\"'()[]{}")
    && (forall i :: 0 <= i < |w.after| ==> w.after[i] in ".,;:!?\"'()[]{}")
    && (forall i :: 0 <= i < |w.gap| ==> Blank(w.gap[i]))
  }

  /** Space, tab, line feed, vertical tab, form feed or carriage return. */
  predicate Blank(c: char) {
    c as int in {32, 9, 10, 11, 12, 13}
  }

  lemma StatementPiece(w: Word)
    requires StatementWord(w)
    ensures Piece(w) != "" && NoneIn(Piece(w), IsSpace) && AllIn(w.gap, IsSpace)
  {
    PunctuationKeeps(w.before);
    PunctuationKeeps(w.after);
  }

  lemma PunctuationKeeps(s: string)
    requires forall i :: 0 <= i < |s| ==> s[i] in ".,;:!?\"'()[]{}"
    ensures ToLower(s) == s && AllIn(s, Similarity.IsPunctuation) && NoneIn(s, IsSpace)
  {
  }

  lemma StatementCore(w: Word)
    requires StatementWord(w)
    ensures var t := ToLower(w.core);
            t != "" && !Similarity.IsPunctuation(t[0]) && !Similarity.IsPunctuation(t[|t| - 1])
  {
    hide ToLower;
    LowerKeeps(w.core);
  }

  lemma BareCore(w: Word)
    requires StatementWord(w)
    ensures Similarity.Bare(ToLower(Piece(w))) == ToLower(w.core) != ""
  {
    hide Trim, ToLower, Similarity.IsPunctuation;
    LowerAppend(w.before, w.core + w.after);
    LowerAppend(w.core, w.after);
    StatementCore(w);
    PunctuationKeeps(w.before);
    PunctuationKeeps(w.after);
    TrimsTo(w.before, ToLower(w.core), w.after, Similarity.IsPunctuation);
  }

  /** The content words of a statement are its words in lower case, without the punctuation around them and without
      the stopwords. */
  lemma ContentWordsOfPhrase(lead: string, ws: seq<Word>, t: string)
    requires forall i :: 0 <= i < |ws| ==> StatementWord(ws[i]) && (i < |ws| - 1 ==> ws[i].gap != "")
    requires forall i :: 0 <= i < |lead| ==> Blank(lead[i])
    ensures t in Similarity.ContentWords(lead + Phrase(ws)) <==>
              !Similarity.IsStopword(t) && exists i :: 0 <= i < |ws| && InLowerCase(t, ws[i].core)
  {
    hide FieldsFunc, ToLower, Phrase, StatementWord, Similarity.IsStopword, Similarity.Bare;
    var raw := lead + Phrase(ws);
    forall i | 0 <= i < |ws|
      ensures Piece(ws[i]) != "" && NoneIn(Piece(ws[i]), IsSpace) && AllIn(ws[i].gap, IsSpace)
    {
      StatementPiece(ws[i]);
    }
    FieldsOfPhrase(ws, IsSpace);
    FieldsSkip(lead, Phrase(ws), IsSpace);
    FieldsOfLower(raw, IsSpace);
    var fs := Lowered(Pieces(ws));
    assert Fields(ToLower(raw)) == fs;
    forall i | 0 <= i < |ws|
      ensures Similarity.Bare(fs[i]) == ToLower(ws[i].core) != "" && InLowerCase(ToLower(ws[i].core), ws[i].core)
    {
      BareCore(ws[i]);
      LowerKeeps(ws[i].core);
    }
    if !Similarity.IsStopword(t) && exists i :: 0 <= i < |ws| && InLowerCase(t, ws[i].core) {
      var i :| 0 <= i < |ws| && InLowerCase(t, ws[i].core);
      LowerUnique(t, ToLower(ws[i].core), ws[i].core);
      assert fs[i] in Fields(ToLower(raw)) && Similarity.IsContentWord(Similarity.Bare(fs[i]));
    }
  }

  lemma LowerUnique(t: string, t': string, s: string)
    requires InLowerCase(t, s) && InLowerCase(t', s)
    ensures t == t'
  {
  }

  // ---- plurals ----

  ghost predicate Digits(t: string) {
    exists i :: 0 <= i < |t| && '0' <= t[i] <= '9'
  }

  lemma DigitsIff(t: string)
    ensures Digits(t) <==> Topic.HasDigit(t)
  {
    if Digits(t) {
      var i :| 0 <= i < |t| && '0' <= t[i] <= '9';
      assert t[i] in t && Topic.IsDigit(t[i]);
    }
  }

  /** -sses, -shes and -ches lose "es", and -ies becomes -y, or -ie after a single letter. */
  lemma PluralsFold(x: string)
    requires x != "" && !Digits(x)
    ensures Topic.Singularize(x + "sses") == x + "ss"
    ensures Topic.Singularize(x + "shes") == x + "sh"
    ensures Topic.Singularize(x + "ches") == x + "ch"
    ensures Topic.Singularize(x + "ies") == if |x| == 1 then x + "ie" else x + "y"
  {
    hide Topic.Singularize;
    DropsEs(x, "sses");
    DropsEs(x, "shes");
    DropsEs(x, "ches");
    assert "sses"[..2] == "ss" && "shes"[..2] == "sh" && "ches"[..2] == "ch";
    TurnsToY(x);
  }

  lemma EndsIn(x: string, end: string)
    requires !Digits(x) && !Digits(end)
    ensures HasSuffix(x + end, end) && !Topic.HasDigit(x + end)
  {
    var t := x + end;
    assert t[|t| - |end|..] == end;
    DigitsIff(t);
    assert forall i :: 0 <= i < |t| ==> t[i] == if i < |x| then x[i] else end[i - |x|];
  }

  lemma DropsEs(x: string, end: string)
    requires !Digits(x) && end in {"sses", "shes", "ches"}
    ensures Topic.Singularize(x + end) == x + end[..2]
  {
    hide Topic.HasDigit;
    var t := x + end;
    EndsIn(x, end);
    assert t[..|t| - 2] == x + end[..2];
  }

  lemma TurnsToY(x: string)
    requires x != "" && !Digits(x)
    ensures Topic.Singularize(x + "ies") == if |x| == 1 then x + "ie" else x + "y"
  {
    hide Topic.HasDigit, HasSuffix;
    var t := x + "ies";
    EndsIn(x, "ies");
    Topic.LastChars(t);
    Topic.LastThree(t);
    assert t[..|t| - 3] == x && t[..|t| - 1] == x + "ie";
  }

  /** A plain final s is dropped from a word of four letters or more; after s, u or i it stays, and so does every other
      ending. */
  lemma OtherEndings(t: string)
    requires |t| > 3 && !Digits(t)
    requires forall x :: t != x + "sses" && t != x + "shes" && t != x + "ches" && t != x + "ies"
    ensures var last, before := t[|t| - 1], t[|t| - 2];
            Topic.Singularize(t) ==
            if last == 's' && before != 's' && before != 'u' && before != 'i' then t[..|t| - 1] else t
  {
    Topic.LastChars(t);
    NotEnding(t, "sses");
    NotEnding(t, "shes");
    NotEnding(t, "ches");
    NotEnding(t, "ies");
    DigitsIff(t);
  }

  lemma NotEnding(t: string, end: string)
    requires forall x :: t != x + end
    ensures !HasSuffix(t, end)
  {
    assert |end| <= |t| ==> t == t[..|t| - |end|] + t[|t| - |end|..];
  }

  /** Words of up to three letters and words with a digit are left alone. */
  lemma LeftAlone(t: string)
    requires |t| <= 3 || Digits(t)
    ensures Topic.Singularize(t) == t
  {
    DigitsIff(t);
  }

  // ---- the key ----

  /** The key joins, in order and without repetition, the folded tokens that are no stopwords, or all tokens when every
      one is a stopword. */
  lemma KeyInFull(raw: string) returns (ks: seq<string>)
    ensures Topic.NormalizeTopic(raw) == Join(ks, "-") && Sorted(ks)
    ensures var ts := Topic.Tokens(raw);
            forall k :: k in ks <==>
              if forall t :: t in ts ==> Topic.IsStopword(t) then k in ts
              else exists t :: t in ts && !Topic.IsStopword(t) && k == Topic.Singularize(t)
  {
    ks := Topic.KeyTokens(raw);
    Topic.KeyTokensFacts(raw);
    var ts, bag := Topic.Tokens(raw), Topic.KeyBag(raw);
    assert forall k :: k in ks <==> k in Elements(ks);
    assert forall k :: k in bag <==> k in Elements(bag);
    KeptExact(ts);
  }

  lemma {:induction false} KeptExact(ts: seq<string>)
    ensures forall k :: k in Topic.Kept(ts) <==>
              exists t :: t in ts && !Topic.IsStopword(t) && k == Topic.Singularize(t)
    ensures Topic.Kept(ts) == [] <==> forall t :: t in ts ==> Topic.IsStopword(t)
  {
    hide Topic.IsStopword, Topic.Singularize;
    if ts != [] {
      KeptExact(ts[1..]);
      assert forall t :: t in ts <==> t == ts[0] || t in ts[1..];
    }
  }
}
