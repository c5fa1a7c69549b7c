/** The label that stands for a URL path in the metrics (pkg/api/http/metrics.go): a pipeline of
    string passes, specified by how a path splits into alphanumeric words and the gaps between. */
module Labels {

  predicate Alnum(c: char) {
    'a' <= c <= 'z' || 'A' <= c <= 'Z' || '0' <= c <= '9'
  }

  predicate AllAlnum(s: string) {
    forall i :: 0 <= i < |s| ==> Alnum(s[i])
  }

  predicate NoAlnum(s: string) {
    forall i :: 0 <= i < |s| ==> !Alnum(s[i])
  }

  // ---------------------------------------------------------------- the pipeline

  function DropInvalid(s: string): (r: string)
    ensures |r| <= |s|
  {
    if s == "" || Alnum(s[0]) then s else DropInvalid(s[1..])
  }

  /** Every longest run of invalid characters becomes one underscore. */
  function Replace(s: string): string
    decreases |s|
  {
    if s == "" then ""
    else if Alnum(s[0]) then [s[0]] + Replace(s[1..])
    else "_" + Replace(DropInvalid(s[1..]))
  }

  function TrimLeft(s: string): string {
    if s != "" && s[0] == '_' then TrimLeft(s[1..]) else s
  }

  function TrimRight(s: string): string {
    if s != "" && s[|s| - 1] == '_' then TrimRight(s[..|s| - 1]) else s
  }

  function LowerChar(c: char): char {
    if 'A' <= c <= 'Z' then c + 32 as char else c
  }

  function Lower(s: string): string {
    seq(|s|, i requires 0 <= i < |s| => LowerChar(s[i]))
  }

  function UrlToLabel(path: string): string {
    var result := Lower(TrimRight(TrimLeft(Replace(path))));
    if result == "" then "root" else result
  }

  // ---------------------------------------------------------------- words and gaps

  /** Words in between gaps: the words are the maximal alphanumeric runs of the whole. */
  predicate Proper(gaps: seq<string>, words: seq<string>) {
    && |gaps| == |words| + 1
    && (forall i :: 0 <= i < |gaps| ==> NoAlnum(gaps[i]))
    && (forall i :: 0 <= i < |words| ==> words[i] != "" && AllAlnum(words[i]))
    && (forall i :: 1 <= i < |words| ==> gaps[i] != "")
  }

  function Weave(gaps: seq<string>, words: seq<string>): string
    requires |gaps| == |words| + 1
  {
    if words == [] then gaps[0] else gaps[0] + words[0] + Weave(gaps[1..], words[1..])
  }

  /** Every path splits into gaps and words. */
  lemma {:induction false} Split(s: string) returns (gaps: seq<string>, words: seq<string>)
    ensures Proper(gaps, words) && Weave(gaps, words) == s
  {
    if s == "" {
      gaps, words := [""], [];
    } else {
      var gaps', words' := Split(s[1..]);
      assert s == [s[0]] + s[1..];
      if !Alnum(s[0]) {
        gaps, words := [[s[0]] + gaps'[0]] + gaps'[1..], words';
        assert gaps[1..] == gaps'[1..];
      } else if words' != [] && gaps'[0] == "" {
        gaps, words := gaps', [[s[0]] + words'[0]] + words'[1..];
        assert words[1..] == words'[1..];
      } else {
        gaps, words := [""] + gaps', [[s[0]]] + words';
        assert gaps[1..] == gaps' && words[1..] == words';
      }
    }
  }

  function Join(words: seq<string>): string {
    if words == [] then "" else if |words| == 1 then words[0] else words[0] + "_" + Join(words[1..])
  }

  function Lowered(words: seq<string>): seq<string> {
    seq(|words|, i requires 0 <= i < |words| => Lower(words[i]))
  }

  /** The words a label is made of. */
  function Canonical(words: seq<string>): seq<string> {
    if words == [] then ["root"] else Lowered(words)
  }

  predicate Words(words: seq<string>) {
    words != [] && forall i :: 0 <= i < |words| ==> words[i] != "" && AllAlnum(words[i])
  }

  // ---------------------------------------------------------------- the pipeline on words and gaps

  lemma {:induction false} ReplaceWord(w: string, rest: string)
    requires AllAlnum(w)
    ensures Replace(w + rest) == w + Replace(rest)
  {
    if w == "" {
      assert w + rest == rest;
    } else {
      assert (w + rest)[1..] == w[1..] + rest;
      ReplaceWord(w[1..], rest);
    }
  }

  lemma {:induction false} DropGap(g: string, rest: string)
    requires NoAlnum(g) && (rest == "" || Alnum(rest[0]))
    ensures DropInvalid(g + rest) == rest
  {
    if g == "" {
      assert g + rest == rest;
    } else {
      assert (g + rest)[1..] == g[1..] + rest;
      DropGap(g[1..], rest);
    }
  }

  function Underscore(gap: string): string {
    if gap == "" then "" else "_"
  }

  lemma ReplaceGap(g: string, rest: string)
    requires NoAlnum(g) && (rest == "" || Alnum(rest[0]))
    ensures Replace(g + rest) == Underscore(g) + Replace(rest)
  {
    if g == "" {
      assert g + rest == rest;
    } else {
      assert (g + rest)[1..] == g[1..] + rest;
      assert (g + rest)[0] == g[0] && g[0] in g;
      DropGap(g[1..], rest);
    }
  }

  lemma ReplaceStep(gap: string, w: string, rest: string)
    requires NoAlnum(gap) && w != "" && AllAlnum(w)
    ensures Replace(gap + w + rest) == Underscore(gap) + w + Replace(rest)
  {
    assert gap + w + rest == gap + (w + rest);
    ReplaceGap(gap, w + rest);
    ReplaceWord(w, rest);
  }

  lemma ReplaceLastGap(gap: string)
    requires NoAlnum(gap)
    ensures Replace(gap) == Underscore(gap)
  {
    assert gap + "" == gap;
    ReplaceGap(gap, "");
  }

  lemma Regroup(a: string, b: string, c: string, d: string, e: string)
    ensures a + b + (c + d + e) == a + (b + c + d) + e
  {
  }

  lemma ProperTail(gaps: seq<string>, words: seq<string>)
    requires Proper(gaps, words) && |words| > 1
    ensures Proper(gaps[1..], words[1..]) && Underscore(gaps[1]) == "_"
  {
    assert gaps[1] != "";
  }

  lemma ReplaceOneWord(gap: string, w: string, last: string)
    requires NoAlnum(gap) && w != "" && AllAlnum(w) && NoAlnum(last)
    ensures Replace(gap + w + last) == Underscore(gap) + w + Underscore(last)
  {
    ReplaceStep(gap, w, last);
    ReplaceLastGap(last);
  }

  lemma ReplaceMoreWords(gap: string, w: string, tail: string, joined: string, last: string)
    requires NoAlnum(gap) && w != "" && AllAlnum(w)
    requires Replace(tail) == "_" + joined + last
    ensures Replace(gap + w + tail) == Underscore(gap) + (w + "_" + joined) + last
  {
    ReplaceStep(gap, w, tail);
    Regroup(Underscore(gap), w, "_", joined, last);
  }

  lemma {:induction false} ReplaceWeave(gaps: seq<string>, words: seq<string>)
    requires Proper(gaps, words) && words != []
    ensures Replace(Weave(gaps, words)) == Underscore(gaps[0]) + Join(words) + Underscore(gaps[|words|])
  {
    if |words| == 1 {
      assert Weave(gaps[1..], []) == gaps[1] && words[1..] == [];
      ReplaceOneWord(gaps[0], words[0], gaps[1]);
    } else {
      ProperTail(gaps, words);
      ReplaceWeave(gaps[1..], words[1..]);
      ReplaceMoreWords(gaps[0], words[0], Weave(gaps[1..], words[1..]), Join(words[1..]), Underscore(gaps[|words|]));
    }
  }

  lemma {:induction false} JoinEnds(words: seq<string>)
    requires Words(words)
    ensures Join(words) != "" && Alnum(Join(words)[0]) && Alnum(Join(words)[|Join(words)| - 1])
  {
    var w := words[0];
    assert w in words && w[0] in w && w[|w| - 1] in w;
    if |words| > 1 {
      JoinEnds(words[1..]);
    }
  }

  lemma {:induction false} LowerJoin(words: seq<string>)
    ensures Lower(Join(words)) == Join(Lowered(words))
  {
    if |words| > 1 {
      LowerJoin(words[1..]);
      assert Lowered(words)[1..] == Lowered(words[1..]);
      assert Lower(Join(words)) == Lower(words[0]) + "_" + Lower(Join(words[1..]));
    }
  }

  lemma TrimBoth(left: string, middle: string, right: string)
    requires left in {"", "_"} && right in {"", "_"}
    requires middle != "" && middle[0] != '_' && middle[|middle| - 1] != '_'
    ensures TrimRight(TrimLeft(left + middle + right)) == middle
  {
    TrimFront(left, middle + right);
    assert left + middle + right == left + (middle + right);
    TrimBack(middle, right);
  }

  lemma TrimFront(left: string, s: string)
    requires left in {"", "_"} && s != "" && s[0] != '_'
    ensures TrimLeft(left + s) == s
  {
    if left == "" {
      assert left + s == s;
    } else {
      assert (left + s)[1..] == s;
    }
  }

  lemma TrimBack(s: string, right: string)
    requires right in {"", "_"} && s != "" && s[|s| - 1] != '_'
    ensures TrimRight(s + right) == s
  {
    if right == "" {
      assert s + right == s;
    } else {
      assert (s + right)[..|s + right| - 1] == s;
    }
  }

  lemma LowerWords(words: seq<string>)
    requires Words(words)
    ensures Words(Lowered(words)) && Lowered(Lowered(words)) == Lowered(words)
  {
    forall i | 0 <= i < |words| ensures AllAlnum(Lower(words[i])) && Lower(Lower(words[i])) == Lower(words[i]) {
      assert words[i] != "" && AllAlnum(words[i]);
    }
    assert Lowered(Lowered(words)) == Lowered(words);
  }

  // ---------------------------------------------------------------- the specification

  /** The label of a path is its maximal alphanumeric runs in lower case, joined with underscores,
      and "root" if there are none. */
  lemma LabelSpecification(gaps: seq<string>, words: seq<string>)
    requires Proper(gaps, words)
    ensures UrlToLabel(Weave(gaps, words)) == Join(Canonical(words))
  {
    if words == [] {
      ReplaceLastGap(gaps[0]);
      assert TrimRight(TrimLeft(Replace(gaps[0]))) == "";
    } else {
      ReplaceWeave(gaps, words);
      JoinEnds(words);
      TrimBoth(Underscore(gaps[0]), Join(words), Underscore(gaps[|words|]));
      LowerJoin(words);
    }
  }

  lemma CanonicalWords(words: seq<string>)
    requires words == [] || Words(words)
    ensures Words(Canonical(words)) && Lowered(Canonical(words)) == Canonical(words)
  {
    if words == [] {
      assert Lower("root") == "root";
      assert Lowered(["root"]) == ["root"];
    } else {
      LowerWords(words);
    }
  }

  /** A word ends where the first underscore of the label is. */
  lemma FirstWord(words: seq<string>)
    requires Words(words)
    ensures |words[0]| <= |Join(words)| && words[0] == Join(words)[..|words[0]|]
    ensures |words| == 1 <==> |words[0]| == |Join(words)|
    ensures |words| > 1 ==> Join(words)[|words[0]|] == '_' && Join(words)[|words[0]| + 1..] == Join(words[1..])
    ensures forall i :: 0 <= i < |words[0]| ==> Join(words)[i] != '_'
  {
    assert words[0] in words;
    forall i | 0 <= i < |words[0]| ensures Join(words)[i] != '_' {
      assert words[0][i] in words[0];
    }
  }

  /** A label splits back into the words it was joined from. */
  lemma {:induction false} JoinInjective(xs: seq<string>, ys: seq<string>)
    requires Words(xs) && Words(ys) && Join(xs) == Join(ys)
    ensures xs == ys
  {
    FirstWord(xs);
    FirstWord(ys);
    assert |xs[0]| == |ys[0]|;
    if |xs| > 1 {
      JoinInjective(xs[1..], ys[1..]);
      assert xs == [xs[0]] + xs[1..] && ys == [ys[0]] + ys[1..];
    }
  }

  /** Two paths share a label exactly if they have the same words up to case, where a path without
      words counts as the word "root". */
  lemma Collisions(gaps: seq<string>, words: seq<string>, gaps': seq<string>, words': seq<string>)
    requires Proper(gaps, words) && Proper(gaps', words')
    ensures UrlToLabel(Weave(gaps, words)) == UrlToLabel(Weave(gaps', words')) <==> Canonical(words) == Canonical(words')
  {
    LabelSpecification(gaps, words);
    LabelSpecification(gaps', words');
    CanonicalWords(words);
    CanonicalWords(words');
    if Join(Canonical(words)) == Join(Canonical(words')) {
      JoinInjective(Canonical(words), Canonical(words'));
    }
  }

  function Separators(n: nat): seq<string> {
    seq(n + 1, i => if 0 < i < n then "_" else "")
  }

  lemma TailOfSeparators(n: nat, first: string)
    requires n > 1
    ensures ([first] + Separators(n)[1..])[1..] == ["_"] + Separators(n - 1)[1..]
  {
  }

  lemma {:induction false} JoinIsWeave(words: seq<string>, first: string)
    requires Words(words)
    ensures Weave([first] + Separators(|words|)[1..], words) == first + Join(words)
  {
    var n := |words|;
    var gaps := [first] + Separators(n)[1..];
    if n > 1 {
      TailOfSeparators(n, first);
      JoinIsWeave(words[1..], "_");
      assert Weave(gaps, words) == first + words[0] + Weave(gaps[1..], words[1..]);
    } else {
      assert gaps == [first, ""] && words[1..] == [];
    }
  }

  /** A label is its own label. */
  lemma Idempotent(path: string)
    ensures UrlToLabel(UrlToLabel(path)) == UrlToLabel(path)
  {
    var gaps, words := Split(path);
    LabelSpecification(gaps, words);
    CanonicalWords(words);
    var canonical := Canonical(words);
    var between := [""] + Separators(|canonical|)[1..];
    JoinIsWeave(canonical, "");
    assert Proper(between, canonical);
    LabelSpecification(between, canonical);
    assert "" + Join(canonical) == Join(canonical);
    assert Canonical(canonical) == canonical;
  }

  predicate LabelChar(c: char) {
    'a' <= c <= 'z' || '0' <= c <= '9' || c == '_'
  }

  /** Labels are not empty, have lower-case letters, digits and underscores only, and underscores
      neither at the ends nor next to each other. */
  predicate WellShaped(s: string) {
    && s != "" && s[0] != '_' && s[|s| - 1] != '_'
    && (forall i :: 0 <= i < |s| ==> LabelChar(s[i]))
    && forall i :: 0 <= i < |s| - 1 ==> !(s[i] == '_' && s[i + 1] == '_')
  }

  lemma {:induction false} JoinShaped(words: seq<string>)
    requires Words(words) && Lowered(words) == words
    ensures WellShaped(Join(words))
  {
    var w := words[0];
    assert w in words && w == Lowered(words)[0];
    forall j | 0 <= j < |w| ensures LabelChar(w[j]) && w[j] != '_' {
      assert w[j] == Lower(w)[j];
    }
    JoinEnds(words);
    if |words| > 1 {
      assert Lowered(words[1..]) == Lowered(words)[1..];
      JoinShaped(words[1..]);
      var rest := Join(words[1..]);
      var s := w + "_" + rest;
      forall i | 0 <= i < |s| - 1 ensures !(s[i] == '_' && s[i + 1] == '_') {
        if i < |w| {
          assert s[i] == w[i] && w[i] in w;
        } else if i == |w| {
          assert s[i + 1] == rest[0];
        } else {
          assert s[i] == rest[i - |w| - 1] && s[i + 1] == rest[i - |w| - 1 + 1];
        }
      }
    }
  }

  lemma LabelsAreWellShaped(path: string)
    ensures WellShaped(UrlToLabel(path))
  {
    var gaps, words := Split(path);
    LabelSpecification(gaps, words);
    CanonicalWords(words);
    JoinShaped(Canonical(words));
  }

  // ---------------------------------------------------------------- what a label keeps

  /** The letters, in lower case, and digits of a string. */
  function Kept(s: string): string {
    if s == "" then ""
    else (if 'A' <= s[0] <= 'Z' then [(s[0] as int + 32) as char]
          else if 'a' <= s[0] <= 'z' || '0' <= s[0] <= '9' then [s[0]] else "") + Kept(s[1..])
  }

  lemma {:induction false} KeptConcat(a: string, b: string)
    ensures Kept(a + b) == Kept(a) + Kept(b)
  {
    if a == "" {
      assert a + b == b;
    } else {
      assert (a + b)[1..] == a[1..] + b;
      KeptConcat(a[1..], b);
    }
  }

  lemma {:induction false} DropKeeps(s: string)
    ensures Kept(DropInvalid(s)) == Kept(s)
  {
    if s != "" && !Alnum(s[0]) {
      DropKeeps(s[1..]);
    }
  }

  lemma {:induction false} ReplaceKeeps(s: string)
    ensures Kept(Replace(s)) == Kept(s)
    decreases |s|
  {
    if s != "" && Alnum(s[0]) {
      ReplaceKeeps(s[1..]);
      KeptConcat([s[0]], Replace(s[1..]));
      KeptConcat([s[0]], s[1..]);
      assert [s[0]] + s[1..] == s;
    } else if s != "" {
      DropKeeps(s[1..]);
      ReplaceKeeps(DropInvalid(s[1..]));
      KeptConcat("_", Replace(DropInvalid(s[1..])));
    }
  }

  lemma {:induction false} TrimLeftKeeps(s: string)
    ensures Kept(TrimLeft(s)) == Kept(s)
  {
    if s != "" && s[0] == '_' {
      TrimLeftKeeps(s[1..]);
    }
  }

  lemma {:induction false} TrimRightKeeps(s: string)
    ensures Kept(TrimRight(s)) == Kept(s)
  {
    if s != "" && s[|s| - 1] == '_' {
      TrimRightKeeps(s[..|s| - 1]);
      KeptConcat(s[..|s| - 1], "_");
      assert s[..|s| - 1] + "_" == s;
    }
  }

  lemma {:induction false} LowerKeeps(s: string)
    ensures Kept(Lower(s)) == Kept(s)
  {
    if s != "" {
      assert Lower(s)[1..] == Lower(s[1..]);
      LowerKeeps(s[1..]);
    }
  }

  /** A label keeps every letter and digit of its path, in order and in lower case, and has no others;
      a path without any is "root". */
  lemma LettersKept(path: string)
    ensures if Kept(path) == "" then UrlToLabel(path) == "root" else Kept(UrlToLabel(path)) == Kept(path)
  {
    var replaced := Replace(path);
    ReplaceKeeps(path);
    TrimLeftKeeps(replaced);
    TrimRightKeeps(TrimLeft(replaced));
    LowerKeeps(TrimRight(TrimLeft(replaced)));
    LabelsAreWellShaped(path);
  }
}
