/** memory/topic.go: turning a raw topic phrase into the canonical supersession key (ASCII phrases). */
module Topic {
  import opened Text

  /** Words that carry no topic. */
  predicate IsStopword(t: string) {
    || t in {"a", "about", "all", "an", "and", "any", "are", "as", "at", "be", "been", "being", "but", "by"}
    || t in {"do", "does", "for", "from", "had", "has", "have", "how", "in", "into", "is", "it", "its", "of"}
    || t in {"on", "or", "our", "over", "should", "so", "some"}
    || t in {"than", "that", "the", "their", "then", "there", "these", "they", "this", "those", "to"}
    || t in {"up", "was", "we", "were", "what", "when", "which", "who", "will", "with", "would"}
  }

  predicate IsCut(c: char) {
    c in "-._/'"
  }

  predicate IsDigit(c: char) {
    '0' <= c <= '9'
  }

  predicate IsWordChar(c: char) {
    'a' <= c <= 'z' || 'A' <= c <= 'Z' || IsDigit(c)
  }

  predicate IsSeparator(c: char) {
    !IsCut(c) && !IsWordChar(c)
  }

  function TrimSuffix(s: string, suffix: string): string {
    if HasSuffix(s, suffix) then s[..|s| - |suffix|] else s
  }

  function CleanField(f: string): string {
    TrimSuffix(Trim(f, IsCut), "'s")
  }

  function CleanFields(fields: seq<string>): seq<string> {
    if fields == [] then []
    else
      var f := CleanField(fields[0]);
      (if f == "" then [] else [f]) + CleanFields(fields[1..])
  }

  function Tokens(raw: string): seq<string> {
    CleanFields(FieldsFunc(ToLower(TrimSpace(raw)), IsSeparator))
  }

  method Tokenize(raw: string) returns (out: seq<string>)
    ensures out == Tokens(raw)
  {
    var fields := FieldsFunc(ToLower(TrimSpace(raw)), IsSeparator);
    out := [];
    ghost var all := CleanFields(fields);
    for i := 0 to |fields|
      invariant out + CleanFields(fields[i..]) == all
    {
      var f := TrimSuffix(Trim(fields[i], IsCut), "'s");
      ghost var rest := CleanFields(fields[i + 1..]);
      assert fields[i..][0] == fields[i] && fields[i..][1..] == fields[i + 1..];
      assert CleanFields(fields[i..]) == (if f == "" then [] else [f]) + rest;
      if f == "" {
        assert [] + rest == rest;
        continue;
      }
      AppendOne(out, f, rest);
      out := out + [f];
    }
  }

  predicate HasDigit(s: string) {
    exists c :: c in s && IsDigit(c)
  }

  /** Folds the plural forms that are safe to fold without a dictionary; identifiers and short words stay. */
  function Singularize(t: string): string {
    if |t| <= 3 || HasDigit(t) then t
    else if HasSuffix(t, "sses") || HasSuffix(t, "shes") || HasSuffix(t, "ches") then t[..|t| - 2]
    else if HasSuffix(t, "ies") && |t| > 4 then t[..|t| - 3] + "y"
    else if HasSuffix(t, "ss") || HasSuffix(t, "us") || HasSuffix(t, "is") then t
    else if HasSuffix(t, "s") then t[..|t| - 1]
    else t
  }

  /** The stopword-free, singularized tokens. */
  function Kept(tokens: seq<string>): seq<string> {
    if tokens == [] then []
    else (if IsStopword(tokens[0]) then [] else [Singularize(tokens[0])]) + Kept(tokens[1..])
  }

  /** What the key is made of: the kept tokens, or all tokens when every one is a stopword. */
  function KeyBag(raw: string): seq<string> {
    var tokens := Tokens(raw);
    if Kept(tokens) == [] then tokens else Kept(tokens)
  }

  function KeyTokens(raw: string): seq<string> {
    SortStrings(Dedupe(KeyBag(raw)))
  }

  function NormalizeTopic(raw: string): string {
    Join(KeyTokens(raw), "-")
  }

  /** dedupe of topic.go, compacting the slice over its own storage; the survivors are in[..n]. */
  method DedupeInPlace(a: array<string>) returns (n: nat)
    modifies a
    ensures n <= a.Length && a[..n] == Dedupe(old(a[..]))
  {
    var seen: set<string> := {};
    n := 0;
    ghost var was := a[..];
    assert Dedupe(was[..0]) == [] && Elements(was[..0]) == {};
    hide Dedupe, Elements;
    for i := 0 to a.Length
      invariant n <= i
      invariant forall k :: i <= k < a.Length ==> a[k] == was[k]
      invariant a[..n] == Dedupe(was[..i])
      invariant seen == Elements(was[..i])
    {
      ghost var before := was[..i];
      var t := a[i];
      assert was[..i + 1] == before + [t];
      DedupeSnoc(before, t);
      ElementsSnoc(before, t);
      if t in seen {
        continue;
      }
      seen := seen + {t};
      a[n] := t;
      assert a[..n + 1] == a[..n] + [t] == Dedupe(before) + [t];
      n := n + 1;
    }
    assert was[..a.Length] == was;
  }

  method Normalize(raw: string) returns (key: string)
    ensures key == NormalizeTopic(raw)
  {
    hide Tokens, Kept, Dedupe, SortStrings, Join;
    var tokens := Tokenize(raw);
    var kept := KeepTokens(tokens);
    if |kept| == 0 {
      kept := tokens;
    }
    var a := new string[|kept|](i requires 0 <= i < |kept| => kept[i]);
    assert a[..] == kept;
    var n := DedupeInPlace(a);
    key := Join(SortStrings(a[..n]), "-");
  }

  /** The first loop of NormalizeTopic. */
  method KeepTokens(tokens: seq<string>) returns (kept: seq<string>)
    ensures kept == Kept(tokens)
  {
    kept := [];
    ghost var all := Kept(tokens);
    for i := 0 to |tokens|
      invariant kept + Kept(tokens[i..]) == all
    {
      ghost var rest := Kept(tokens[i + 1..]);
      assert tokens[i..][0] == tokens[i] && tokens[i..][1..] == tokens[i + 1..];
      assert Kept(tokens[i..]) == (if IsStopword(tokens[i]) then [] else [Singularize(tokens[i])]) + rest;
      if IsStopword(tokens[i]) {
        assert [] + rest == rest;
        continue;
      }
      AppendOne(kept, Singularize(tokens[i]), rest);
      kept := kept + [Singularize(tokens[i])];
    }
  }

  // ---- the key is canonical ----

  lemma KeyTokensFacts(raw: string)
    ensures Sorted(KeyTokens(raw)) && Elements(KeyTokens(raw)) == Elements(KeyBag(raw))
  {
    DedupeFacts(KeyBag(raw));
    SortStringsSorts(Dedupe(KeyBag(raw)));
  }

  lemma InKeyTokens(raw: string, t: string)
    requires t in KeyTokens(raw)
    ensures t in KeyBag(raw)
  {
    KeyTokensFacts(raw);
    assert t in Elements(KeyTokens(raw));
  }

  /** The key depends only on the set of tokens it is made of: not on order, repetition or stopwords. */
  lemma KeyDependsOnTokenSet(a: string, b: string)
    requires Elements(KeyBag(a)) == Elements(KeyBag(b))
    ensures NormalizeTopic(a) == NormalizeTopic(b)
  {
    KeyTokensFacts(a);
    KeyTokensFacts(b);
    SortedUnique(KeyTokens(a), KeyTokens(b));
  }

  // ---- normalizing a key again ----

  /** Lower-case, without a separator. */
  predicate IsWord(s: string) {
    forall c :: c in s ==> !IsSeparator(c) && Lower(c) == c
  }

  /** Ends like a plural that Singularize would fold in a long enough word. */
  predicate PluralEnd(t: string) {
    HasSuffix(t, "s") && !HasSuffix(t, "ss") && !HasSuffix(t, "us") && !HasSuffix(t, "is")
  }

  lemma SingularizeChanges(t: string)
    ensures Singularize(t) != t <==> |t| > 3 && !HasDigit(t) && PluralEnd(t)
  {
    LastChars(t);
    LastThree(t);
  }

  /** Suffixes read off the last characters. */
  lemma LastChars(t: string)
    ensures HasSuffix(t, "s") <==> |t| >= 1 && t[|t| - 1] == 's'
    ensures HasSuffix(t, "ss") <==> |t| >= 2 && t[|t| - 1] == 's' && t[|t| - 2] == 's'
    ensures HasSuffix(t, "us") <==> |t| >= 2 && t[|t| - 1] == 's' && t[|t| - 2] == 'u'
    ensures HasSuffix(t, "is") <==> |t| >= 2 && t[|t| - 1] == 's' && t[|t| - 2] == 'i'
    ensures HasSuffix(t, "'s") <==> |t| >= 2 && t[|t| - 1] == 's' && t[|t| - 2] == '\''
  {
    if |t| >= 1 {
      assert t[|t| - 1..] == [t[|t| - 1]];
    }
    if |t| >= 2 {
      assert t[|t| - 2..] == [t[|t| - 2], t[|t| - 1]];
    }
  }

  lemma LastThree(t: string)
    ensures HasSuffix(t, "ies") ==> |t| >= 3 && t[|t| - 1] == 's' && t[|t| - 2] == 'e'
    ensures HasSuffix(t, "sses") ==> |t| >= 4 && t[|t| - 1] == 's' && t[|t| - 2] == 'e' && t[|t| - 3] == 's'
    ensures HasSuffix(t, "shes") ==> |t| >= 4 && t[|t| - 1] == 's' && t[|t| - 2] == 'e' && t[|t| - 3] == 'h'
    ensures HasSuffix(t, "ches") ==> |t| >= 4 && t[|t| - 1] == 's' && t[|t| - 2] == 'e' && t[|t| - 3] == 'h'
  {
    if |t| >= 4 {
      assert t[|t| - 4..] == [t[|t| - 4], t[|t| - 3], t[|t| - 2], t[|t| - 1]];
    }
    if |t| >= 3 {
      assert t[|t| - 3..] == [t[|t| - 3], t[|t| - 2], t[|t| - 1]];
    }
  }

  /** Folding a plural twice changes nothing more. */
  lemma SingularizeIdempotent(t: string)
    ensures Singularize(Singularize(t)) == Singularize(t)
  {
    var s := Singularize(t);
    SingularizeChanges(t);
    SingularizeChanges(s);
    LastChars(t);
    LastThree(t);
    LastChars(s);
  }

  /** A key token is a singularized word, unless the whole phrase is stopwords. */
  lemma {:induction false} KeptAreSingular(tokens: seq<string>, t: string)
    requires t in Kept(tokens)
    ensures Singularize(t) == t
  {
    if !IsStopword(tokens[0]) && t == Singularize(tokens[0]) {
      SingularizeIdempotent(tokens[0]);
    } else {
      KeptAreSingular(tokens[1..], t);
    }
  }

  /** Every token is a word. */
  lemma TokensAreWords(raw: string, t: string)
    requires t in Tokens(raw)
    ensures t != "" && IsWord(t)
  {
    hide FieldsFunc, TrimSpace;
    var low := ToLower(TrimSpace(raw));
    var f := CleanFieldOrigin(FieldsFunc(low, IsSeparator), t);
    CleanFieldKeeps(f);
    forall c | c in t ensures !IsSeparator(c) && Lower(c) == c {
      FieldsFuncChars(low, IsSeparator, f, c);
    }
  }

  lemma {:induction false} CleanFieldOrigin(fields: seq<string>, t: string) returns (f: string)
    requires t in CleanFields(fields)
    ensures t != "" && f in fields && CleanField(f) == t
  {
    hide CleanField;
    if t == CleanField(fields[0]) && t != "" {
      f := fields[0];
    } else {
      f := CleanFieldOrigin(fields[1..], t);
    }
  }

  /** Cleaning a field keeps a piece of it, all of it exactly when there is nothing to cut off. */
  lemma CleanFieldKeeps(f: string)
    ensures forall c :: c in CleanField(f) ==> c in f
    ensures |CleanField(f)| <= |f|
    ensures CleanField(f) == f <==> |CleanField(f)| == |f|
    ensures CleanField(f) == f <==> f == "" || (!IsCut(f[0]) && !IsCut(f[|f| - 1]) && !HasSuffix(f, "'s"))
  {
    hide Trim;
    TrimKeeps(f, IsCut);
    if f == "" || (!IsCut(f[0]) && !IsCut(f[|f| - 1])) {
      TrimClean(f, IsCut);
    }
  }

  lemma SingularizeWord(t: string)
    requires t != "" && IsWord(t)
    ensures Singularize(t) != "" && IsWord(Singularize(t)) && |Singularize(t)| <= |t|
  {
  }

  lemma {:induction false} KeptAreWords(tokens: seq<string>, t: string)
    requires t in Kept(tokens) && forall x :: x in tokens ==> x != "" && IsWord(x)
    ensures IsWord(t)
  {
    hide Singularize, IsWord;
    assert tokens[0] in tokens && forall x :: x in tokens[1..] ==> x in tokens;
    SingularizeWord(tokens[0]);
    if t != Singularize(tokens[0]) {
      KeptAreWords(tokens[1..], t);
    }
  }

  lemma {:induction false} JoinIsWord(ts: seq<string>)
    requires forall t :: t in ts ==> IsWord(t)
    ensures IsWord(Join(ts, "-"))
  {
    if |ts| == 1 {
      assert ts[0] in ts;
    } else if |ts| > 1 {
      assert ts[0] in ts && forall t :: t in ts[1..] ==> t in ts;
      JoinIsWord(ts[1..]);
      assert forall c :: c in Join(ts, "-") ==> c in ts[0] || c == '-' || c in Join(ts[1..], "-");
    }
  }

  /** So is every key. */
  lemma KeyIsWord(raw: string)
    ensures IsWord(NormalizeTopic(raw))
  {
    hide IsWord, Tokens, Kept, Join;
    forall t | t in KeyTokens(raw) ensures IsWord(t) {
      InKeyTokens(raw, t);
      forall x | x in Tokens(raw) ensures x != "" && IsWord(x) {
        TokensAreWords(raw, x);
      }
      if Kept(Tokens(raw)) != [] {
        KeptAreWords(Tokens(raw), t);
      }
    }
    JoinIsWord(KeyTokens(raw));
  }

  /** A key of several tokens ends in a hyphen and its last token. */
  lemma {:induction false} JoinEnds(ts: seq<string>) returns (front: string)
    requires |ts| >= 2
    ensures Join(ts, "-") == front + "-" + ts[|ts| - 1]
  {
    if |ts| == 2 {
      front := ts[0];
    } else {
      var f := JoinEnds(ts[1..]);
      front := ts[0] + "-" + f;
      assert ts[0] + "-" + (f + "-" + ts[|ts| - 1]) == front + "-" + ts[|ts| - 1];
    }
  }

  lemma FieldsOfWord(s: string)
    requires s != "" && forall c :: c in s ==> !IsSeparator(c)
    ensures FieldsFunc(s, IsSeparator) == [s]
  {
    forall i | 0 <= i < |s| ensures !IsSeparator(s[i]) {
      assert s[i] in s;
    }
    WordLengthIs(s, |s|, IsSeparator);
    assert s[..|s|] == s && s[|s|..] == "";
  }

  /** A word is its own only field. */
  lemma TokensOfWord(key: string)
    requires key != "" && IsWord(key)
    ensures Tokens(key) == if CleanField(key) == "" then [] else [CleanField(key)]
  {
    hide CleanField;
    assert key[0] in key && key[|key| - 1] in key;
    TrimClean(key, IsSpace);
    assert ToLower(key) == key by {
      forall i | 0 <= i < |key| ensures ToLower(key)[i] == key[i] {
        assert key[i] in key;
      }
    }
    FieldsOfWord(key);
    assert [key][1..] == [] && CleanFields([]) == [];
  }

  /** Normalizing a word cleans its ends and folds it. */
  lemma KeyOfWord(key: string)
    requires key != "" && IsWord(key)
    ensures var f := CleanField(key);
            NormalizeTopic(key) == if f == "" || IsStopword(f) then f else Singularize(f)
  {
    hide CleanField, IsStopword, Singularize;
    TokensOfWord(key);
    var f := CleanField(key);
    if f == "" {
      assert Kept([]) == [];
    } else {
      var t := if IsStopword(f) then f else Singularize(f);
      assert Kept([f]) == if IsStopword(f) then [] else [t];
      assert KeyBag(key) == [t];
      assert Dedupe([t]) == [t];
      assert SortStrings([t]) == [t];
    }
  }

  /** No cut character at either end, no possessive, and no plural that would be folded. */
  predicate Settled(key: string) {
    key == "" ||
    (!IsCut(key[0]) && !IsCut(key[|key| - 1]) && !HasSuffix(key, "'s") &&
     (IsStopword(key) || HasDigit(key) || |key| <= 3 || !PluralEnd(key)))
  }

  /** Normalizing a key again gives the key back exactly when it neither begins nor ends in a cut character or a
      possessive, and is a stopword, carries a digit, is short, or does not look like a plural: "cluster-dns" becomes
      "cluster-dn". */
  lemma KeyIsStable(raw: string)
    ensures NormalizeTopic(NormalizeTopic(raw)) == NormalizeTopic(raw) <==> Settled(NormalizeTopic(raw))
  {
    hide CleanField, IsStopword, Singularize, KeyTokens, Join;
    var key := NormalizeTopic(raw);
    KeyIsWord(raw);
    if key == "" {
      EmptyKey();
    } else {
      var f := CleanField(key);
      KeyOfWord(key);
      CleanFieldKeeps(key);
      if f == key {
        SingularizeChanges(key);
      } else {
        FoldedIsShorter(f, |key|);
      }
    }
  }

  lemma FoldedIsShorter(f: string, n: nat)
    requires |f| < n
    ensures |Singularize(f)| < n
  {
  }

  lemma EmptyKey()
    ensures NormalizeTopic("") == ""
  {
    assert Tokens("") == [];
  }

  /** A phrase that keeps some token is only at risk through a last token of up to three letters. */
  lemma AtRiskIsShort(raw: string)
    requires Kept(Tokens(raw)) != [] && !HasDigit(NormalizeTopic(raw))
    requires var ts := KeyTokens(raw); ts != [] && PluralEnd(ts[|ts| - 1])
    ensures var ts := KeyTokens(raw); |ts[|ts| - 1]| <= 3
  {
    var ts := KeyTokens(raw);
    var last := ts[|ts| - 1];
    InKeyTokens(raw, last);
    KeptAreSingular(Tokens(raw), last);
    SingularizeChanges(last);
    assert HasDigit(last) ==> HasDigit(NormalizeTopic(raw)) by {
      if |ts| >= 2 {
        var front := JoinEnds(ts);
        assert forall c :: c in last ==> c in front + "-" + last;
      }
    }
  }

  /** The excluded case is real: a key that a phrase produces and that a second normalization changes. */
  lemma ClusterDns()
    ensures NormalizeTopic("cluster dns") == "cluster-dns" && NormalizeTopic("cluster-dns") == "cluster-dn"
  {
    hide NormalizeTopic, IsWord, IsStopword, Singularize, CleanField;
    ClusterDnsKey();
    ClusterDnsClean();
    KeyOfWord("cluster-dns");
    NoStopword("cluster-dns");
    ClusterDnsFolds();
  }

  lemma ClusterDnsClean()
    ensures IsWord("cluster-dns") && CleanField("cluster-dns") == "cluster-dns"
  {
    var key := "cluster-dns";
    hide CleanField;
    assert key[|key| - 1] == 's' && key[|key| - 2] == 'n';
    LastChars(key);
    CleanFieldKeeps(key);
  }

  lemma ClusterDnsFolds()
    ensures Singularize("cluster-dns") == "cluster-dn"
  {
    hide HasDigit;
    var key := "cluster-dns";
    assert !HasDigit(key) by { NoDigit(key); }
    assert key[..10] == "cluster-dn";
    LastThree(key);
    SingularizeChanges(key);
  }

  lemma NoDigit(s: string)
    requires forall c :: c in s ==> !IsDigit(c)
    ensures !HasDigit(s)
  {
  }

  lemma NoStopword(t: string)
    requires |t| > 6 || (|t| == 3 && t[0] == 'd')
    ensures !IsStopword(t)
  {
  }

  lemma ClusterDnsFields()
    ensures FieldsFunc("cluster dns", IsSeparator) == ["cluster", "dns"]
  {
    hide FieldsFunc, WordLength;
    var raw := "cluster dns";
    WordLengthIs(raw, 7, IsSeparator);
    assert raw[..7] == "cluster" && raw[7..] == " dns" && " dns"[1..] == "dns";
    FieldsOfWord("dns");
    FieldsFuncSteps(raw);
    FieldsFuncSteps(" dns");
  }

  lemma FieldsFuncSteps(s: string)
    requires s != ""
    ensures FieldsFunc(s, IsSeparator) ==
            if IsSeparator(s[0]) then FieldsFunc(s[1..], IsSeparator)
            else
              var n := WordLength(s, IsSeparator);
              [s[..n]] + FieldsFunc(s[n..], IsSeparator)
  {
  }

  lemma ClusterDnsIsClean()
    ensures ToLower(TrimSpace("cluster dns")) == "cluster dns"
  {
    hide Trim;
    TrimClean("cluster dns", IsSpace);
    assert ToLower("cluster dns") == "cluster dns";
  }

  lemma ClusterDnsTokens()
    ensures Tokens("cluster dns") == ["cluster", "dns"]
  {
    hide FieldsFunc, Trim, TrimSpace;
    var raw := "cluster dns";
    ClusterDnsIsClean();
    ClusterDnsFields();
    TrimClean("cluster", IsCut);
    TrimClean("dns", IsCut);
    assert CleanField("cluster") == "cluster" && CleanField("dns") == "dns";
    var fields := ["cluster", "dns"];
    assert fields[1..] == ["dns"] && ["dns"][1..] == [];
    assert CleanFields([]) == [];
    assert CleanFields(["dns"]) == ["dns"] + [];
  }

  lemma ClusterDnsKept()
    ensures Kept(["cluster", "dns"]) == ["cluster", "dns"]
  {
    hide IsStopword;
    NoStopword("cluster");
    NoStopword("dns");
    LastChars("cluster");
    SingularizeChanges("cluster");
    assert Kept([]) == [];
    assert Kept(["dns"]) == ["dns"] + [];
    assert ["cluster", "dns"][1..] == ["dns"];
  }

  lemma ClusterDnsKey()
    ensures NormalizeTopic("cluster dns") == "cluster-dns"
  {
    hide Tokens, Kept;
    ClusterDnsTokens();
    ClusterDnsKept();
    DedupeSnoc(["cluster"], "dns");
    assert ["cluster"] + ["dns"] == ["cluster", "dns"];
    assert ["cluster", "dns"][1..] == ["dns"];
    assert Join(["dns"], "-") == "dns";
  }
}
