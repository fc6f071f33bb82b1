/** Resolving a side phrase against a dish description (whatsapp-described-side.ts).
    Tokenising by regular expression is outside the model: both texts arrive as word lists. */
module DescribedSide {
  import opened Options

  type Word = string

  // ---------- Edit distance, the independent reference ----------

  function Min(x: nat, y: nat): nat { if x < y then x else y }

  /** Levenshtein distance by its recursive definition. */
  function Distance(a: Word, b: Word): nat
    decreases |a| + |b|
  {
    if a == "" then |b|
    else if b == "" then |a|
    else Min(Min(Distance(a[1..], b), Distance(a, b[1..])) + 1,
             Distance(a[1..], b[1..]) + if a[0] == b[0] then 0 else 1)
  }

  lemma {:induction false} DistanceZero(a: Word, b: Word)
    ensures Distance(a, b) == 0 <==> a == b
    decreases |a|
  {
    if a != "" && b != "" {
      DistanceZero(a[1..], b[1..]);
      assert a == [a[0]] + a[1..] && b == [b[0]] + b[1..];
    }
  }

  lemma {:induction false} DistanceAtLeastLengthGap(a: Word, b: Word)
    ensures Distance(a, b) >= |a| - |b| && Distance(a, b) >= |b| - |a|
    decreases |a| + |b|
  {
    if a != "" && b != "" {
      DistanceAtLeastLengthGap(a[1..], b);
      DistanceAtLeastLengthGap(a, b[1..]);
      DistanceAtLeastLengthGap(a[1..], b[1..]);
    }
  }

  /** Dropping one leading character moves the distance by at most one. */
  lemma {:induction false} DistanceDropHead(a: Word, b: Word)
    requires a != ""
    ensures Distance(a[1..], b) <= Distance(a, b) + 1
    ensures Distance(a, b) <= Distance(a[1..], b) + 1
    decreases |a| + |b|
  {
    if b != "" {
      DistanceDropHead(a, b[1..]);
      if |a| > 1 {
        DistanceDropHead(a[1..], b);
      } else {
        DistanceAtLeastLengthGap(a, b);
      }
    }
  }

  lemma {:induction false} DistanceSymmetric(a: Word, b: Word)
    ensures Distance(a, b) == Distance(b, a)
    decreases |a| + |b|
  {
    if a != "" && b != "" {
      DistanceSymmetric(a[1..], b);
      DistanceSymmetric(a, b[1..]);
      DistanceSymmetric(a[1..], b[1..]);
    }
  }

  /** A common first character costs nothing. */
  lemma {:induction false} DistanceCommonHead(a: Word, b: Word)
    requires a != "" && b != "" && a[0] == b[0]
    ensures Distance(a, b) == Distance(a[1..], b[1..])
  {
    DistanceSymmetric(a[1..], b);
    DistanceSymmetric(a[1..], b[1..]);
    DistanceDropHead(b, a[1..]);
    DistanceDropHead(a, b[1..]);
  }

  /** Which words are one edit away once the first characters differ. */
  lemma {:induction false} DistanceOneAtMismatch(a: Word, b: Word)
    requires a != "" && b != "" && a[0] != b[0]
    ensures |a| == |b| ==> (Distance(a, b) == 1 <==> a[1..] == b[1..])
    ensures |a| == |b| + 1 ==> (Distance(a, b) == 1 <==> a[1..] == b)
    ensures |b| == |a| + 1 ==> (Distance(a, b) == 1 <==> a == b[1..])
  {
    DistanceZero(a[1..], b[1..]);
    DistanceZero(a[1..], b);
    DistanceZero(a, b[1..]);
    DistanceAtLeastLengthGap(a[1..], b[1..]);
    DistanceAtLeastLengthGap(a[1..], b);
    DistanceAtLeastLengthGap(a, b[1..]);
  }

  // ---------- The two-pointer test ----------

  ghost predicate WithinOneEdit(a: Word, b: Word) {
    |a| >= 4 && |b| >= 4 && Distance(a, b) == 1
  }

  /** One comparison of the two pointers. */
  lemma Step(a: Word, b: Word, i: nat, j: nat)
    requires i < |a| && j < |b|
    ensures a[i] == b[j] ==> Distance(a[i..], b[j..]) == Distance(a[i + 1..], b[j + 1..])
    ensures a[i] == b[j] ==> (a[i..] == b[j..] <==> a[i + 1..] == b[j + 1..])
    ensures a[i] != b[j] ==> a[i..] != b[j..]
    ensures a[i] != b[j] && |a| - i == |b| - j ==> (Distance(a[i..], b[j..]) == 1 <==> a[i + 1..] == b[j + 1..])
    ensures a[i] != b[j] && |a| - i == |b| - j + 1 ==> (Distance(a[i..], b[j..]) == 1 <==> a[i + 1..] == b[j..])
    ensures a[i] != b[j] && |b| - j == |a| - i + 1 ==> (Distance(a[i..], b[j..]) == 1 <==> a[i..] == b[j + 1..])
  {
    assert a[i..][1..] == a[i + 1..] && b[j..][1..] == b[j + 1..];
    assert a[i..] == [a[i]] + a[i + 1..] && b[j..] == [b[j]] + b[j + 1..];
    if a[i] == b[j] { DistanceCommonHead(a[i..], b[j..]); } else { DistanceOneAtMismatch(a[i..], b[j..]); }
  }

  method OneEdit(a: Word, b: Word) returns (r: bool)
    ensures r <==> WithinOneEdit(a, b)
  {
    if (if |a| < |b| then |a| else |b|) < 4 || |a| - |b| > 1 || |b| - |a| > 1 {
      DistanceAtLeastLengthGap(a, b);
      return false;
    }
    var i, j, edits := 0, 0, 0;
    while i < |a| && j < |b|
      invariant i <= |a| && j <= |b| && 0 <= edits <= 1
      invariant edits == 0 ==> i == j && Distance(a, b) == Distance(a[i..], b[j..])
      invariant edits == 1 ==> |a| - i == |b| - j && (Distance(a, b) == 1 <==> a[i..] == b[j..])
      decreases |a| - i + |b| - j
    {
      Step(a, b, i, j);
      if a[i] == b[j] {
        i, j := i + 1, j + 1;
        continue;
      }
      edits := edits + 1;
      if edits > 1 { return false; }
      if |a| >= |b| { i := i + 1; }
      if |b| >= |a| { j := j + 1; }
    }
    r := edits + (|a| - i) + (|b| - j) == 1;
  }

  // ---------- Unique-window resolution ----------

  function Join(words: seq<Word>): string {
    if words == [] then "" else if |words| == 1 then words[0] else words[0] + " " + Join(words[1..])
  }

  /** What the tokeniser yields: words of letters, so without spaces. */
  predicate Tokens(words: seq<Word>) {
    forall w <- words :: ' ' !in w
  }

  lemma CutAtFirstSpace(w: Word, r: string, x: Word, t: string)
    requires ' ' !in w && ' ' !in x && w + " " + r == x + " " + t
    ensures w == x && r == t
  {
    var s := w + " " + r;
    assert s[|w|] == ' ' && s[|x|] == ' ';
    assert forall k :: 0 <= k < |w| ==> s[k] == w[k];
    assert forall k :: 0 <= k < |x| ==> s[k] == x[k];
    assert |w| == |x|;
    assert w == s[..|w|] && r == s[|w| + 1..];
    assert x == s[..|x|] && t == s[|x| + 1..];
  }

  lemma {:induction false} JoinInjective(u: seq<Word>, v: seq<Word>)
    requires |u| == |v| && Tokens(u) && Tokens(v) && Join(u) == Join(v)
    ensures u == v
    decreases |u|
  {
    if |u| > 1 {
      CutAtFirstSpace(u[0], Join(u[1..]), v[0], Join(v[1..]));
      JoinInjective(u[1..], v[1..]);
      assert u == [u[0]] + u[1..] && v == [v[0]] + v[1..];
    }
  }

  ghost predicate WindowAt(row: seq<Word>, have: seq<Word>, n: nat, i: nat) {
    i + n <= |have| && row == have[i..i + n]
  }

  ghost predicate IsWindow(row: seq<Word>, have: seq<Word>, n: nat) {
    exists i: nat :: WindowAt(row, have, n, i)
  }

  /** Same first word, and exactly one word differs, by one edit. */
  ghost predicate NearMiss(row: seq<Word>, said: seq<Word>)
    requires |row| == |said| > 0
  {
    && row[0] == said[0]
    && exists k :: 0 <= k < |row| && row[k] != said[k] && WithinOneEdit(row[k], said[k])
                   && forall i :: 0 <= i < |row| && i != k ==> row[i] == said[i]
  }

  /** The one-row filter of the fuzzy search. */
  method IsNearMiss(row: seq<Word>, said: seq<Word>) returns (r: bool)
    requires |row| == |said| > 0
    ensures r <==> NearMiss(row, said)
  {
    if row[0] != said[0] { return false; }
    var different := 0;
    ghost var last := 0;
    for i := 0 to |row|
      invariant different == 0 ==> row[..i] == said[..i]
      invariant different >= 1 ==> last < i && row[last] != said[last]
      invariant different == 1 ==> forall k :: 0 <= k < i && k != last ==> row[k] == said[k]
      invariant different >= 2 ==> exists k :: 0 <= k < i && k != last && row[k] != said[k]
    {
      if row[i] != said[i] {
        different := different + 1;
        last := i;
      }
    }
    if different != 1 { return false; }
    for i := 0 to |row|
      invariant last < i ==> WithinOneEdit(row[last], said[last])
    {
      var ok := row[i] == said[i];
      if !ok { ok := OneEdit(row[i], said[i]); }
      if !ok { return false; }
    }
    return true;
  }

  method Windows(have: seq<Word>, n: nat) returns (windows: seq<seq<Word>>)
    requires n > 0
    ensures forall row :: row in windows <==> IsWindow(row, have, n)
  {
    windows := [];
    for i := 0 to |have|
      invariant forall row :: row in windows <==> exists k: nat :: k < i && WindowAt(row, have, n, k)
    {
      if i + n <= |have| {
        assert WindowAt(have[i..i + n], have, n, i);
        windows := windows + [have[i..i + n]];
      }
    }
  }

  /** The joined near misses; `rows` remembers which windows they came from. */
  method Matches(windows: seq<seq<Word>>, said: seq<Word>) returns (matches: set<string>, ghost rows: set<seq<Word>>)
    requires |said| > 0 && forall row <- windows :: |row| == |said|
    ensures forall row :: row in rows <==> row in windows && NearMiss(row, said)
    ensures matches == set row | row in rows :: Join(row)
  {
    matches, rows := {}, {};
    for i := 0 to |windows|
      invariant forall row :: row in rows <==> row in windows[..i] && NearMiss(row, said)
      invariant matches == set row | row in rows :: Join(row)
    {
      assert windows[..i + 1] == windows[..i] + [windows[i]];
      var near := IsNearMiss(windows[i], said);
      if near {
        matches := matches + {Join(windows[i])};
        rows := rows + {windows[i]};
      }
    }
    assert windows[..|windows|] == windows;
  }

  ghost predicate IsCandidate(row: seq<Word>, said: seq<Word>, have: seq<Word>)
    requires |said| > 0
  {
    IsWindow(row, have, |said|) && NearMiss(row, said)
  }

  /** `resolveDescribedSidePhrase` after tokenising. A fuzzy answer exists exactly when one distinct
      window is a near miss, and it is that window. */
  method ResolveDescribedSidePhrase(said: seq<Word>, have: seq<Word>) returns (r: Option<string>)
    requires Tokens(said) && Tokens(have)
    ensures |said| == 0 || |said| > 3 ==> r == None
    ensures 1 <= |said| <= 3 && IsWindow(said, have, |said|) ==> r == Some(Join(said))
    ensures |said| == 1 && !IsWindow(said, have, 1) ==> r == None
    ensures 2 <= |said| <= 3 && !IsWindow(said, have, |said|) && r.Some? ==>
              exists row :: IsCandidate(row, said, have) && r.value == Join(row)
    ensures 2 <= |said| <= 3 && !IsWindow(said, have, |said|) ==>
              forall row | IsCandidate(row, said, have) ::
                r == Some(Join(row)) <==> forall other | IsCandidate(other, said, have) :: other == row
  {
    var n := |said|;
    if n == 0 || n > 3 { return None; }
    var windows := Windows(have, n);
    if said in windows { return Some(Join(said)); }
    if n < 2 { return None; }
    var matches, rows := Matches(windows, said);
    assert forall row :: row in rows <==> IsCandidate(row, said, have);
    DistinctTexts(matches, rows, said, have);
    if |matches| == 1 {
      var text :| text in matches;
      return Some(text);
    }
    return None;
  }

  /** Counting distinct texts is counting distinct windows. */
  lemma DistinctTexts(matches: set<string>, rows: set<seq<Word>>, said: seq<Word>, have: seq<Word>)
    requires |said| > 0 && Tokens(have)
    requires forall row :: row in rows <==> IsCandidate(row, said, have)
    requires matches == set row | row in rows :: Join(row)
    ensures forall row | row in rows :: |matches| == 1 <==> forall other | other in rows :: other == row
    ensures |matches| == 1 ==> forall text, row | text in matches && row in rows :: text == Join(row)
    ensures |matches| == 1 ==> rows != {}
  {
    forall u, v | u in rows && v in rows && Join(u) == Join(v) ensures u == v {
      WindowTokens(u, have, |said|);
      WindowTokens(v, have, |said|);
      JoinInjective(u, v);
    }
    forall row | row in rows ensures Join(row) in matches {
    }
    if |matches| == 1 {
      forall text, row | text in matches && row in rows ensures text == Join(row) {
        Singleton(matches, Join(row));
      }
      assert rows != {};
    }
    forall row | row in rows && forall other | other in rows :: other == row ensures |matches| == 1 {
      assert matches == {Join(row)};
    }
  }

  lemma WindowTokens(row: seq<Word>, have: seq<Word>, n: nat)
    requires IsWindow(row, have, n) && Tokens(have)
    ensures Tokens(row)
  {
    forall w <- row ensures ' ' !in w {
      assert w in have;
    }
  }

  lemma Singleton<T>(s: set<T>, x: T)
    requires |s| == 1 && x in s
    ensures s == {x}
  {
    assert |s - {x}| == 0;
  }
}
