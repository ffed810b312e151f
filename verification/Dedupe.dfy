/** The migration that makes category names unique by suffixing the later holders of a name, and
    exactly which names it does that for. */
module Dedupe {
  import opened Prelude

  // ------------------------------------------------------------------------
  // Names
  // ------------------------------------------------------------------------

  predicate IsSpace(c: char) {
    c == ' ' || '\t' <= c <= '\r' || '\U{1C}' <= c <= '\U{1F}'
  }

  function LowerChar(c: char): char {
    if 'A' <= c <= 'Z' then c - 'A' + 'a' else c
  }

  function Lower(s: string): (r: string)
    ensures |r| == |s| && forall i :: 0 <= i < |s| ==> r[i] == LowerChar(s[i])
  {
    seq(|s|, i requires 0 <= i < |s| => LowerChar(s[i]))
  }

  function TrimStart(s: string): (r: string)
    ensures |r| <= |s|
  {
    if s != [] && IsSpace(s[0]) then TrimStart(s[1..]) else s
  }

  function TrimEnd(s: string): (r: string)
    ensures |r| <= |s|
  {
    if s != [] && IsSpace(s[|s| - 1]) then TrimEnd(s[..|s| - 1]) else s
  }

  /** The key a name is compared by: stripped and lower-cased. */
  function Key(name: string): string {
    Lower(TrimEnd(TrimStart(name)))
  }

  function Digits(n: nat): (r: string)
    ensures |r| > 0 && forall i :: 0 <= i < |r| ==> '0' <= r[i] <= '9'
  {
    if n < 10 then ['0' + n as char] else Digits(n / 10) + ['0' + (n % 10) as char]
  }

  function Suffix(n: nat): string {
    " (" + Digits(n) + ")"
  }

  lemma {:induction false} DigitsInjective(a: nat, b: nat)
    requires Digits(a) == Digits(b)
    ensures a == b
    decreases a
  {
    var s, t := Digits(a), Digits(b);
    assert s[|s| - 1] == t[|t| - 1];
    if a >= 10 && b >= 10 {
      assert s[..|s| - 1] == Digits(a / 10) && t[..|t| - 1] == Digits(b / 10);
      DigitsInjective(a / 10, b / 10);
    }
  }

  lemma SuffixInjective(key: string, a: nat, b: nat)
    requires key + Suffix(a) == key + Suffix(b)
    ensures a == b
  {
    DigitsInKey(key, a);
    DigitsInKey(key, b);
    DigitsInjective(a, b);
  }

  lemma DigitsInKey(key: string, n: nat)
    ensures var s := key + Suffix(n); |s| >= |key| + 3 && s[|key| + 2..|s| - 1] == Digits(n)
  {
    var s, d := key + Suffix(n), Digits(n);
    assert |s| == |key| + |d| + 3;
    assert s == key + " (" + d + ")";
    forall i | 0 <= i < |d| ensures s[|key| + 2 + i] == d[i] {
    }
  }

  // ------------------------------------------------------------------------
  // The pass
  // ------------------------------------------------------------------------

  /** Keys already taken that carry this key and a suffix from n up: what is left to skip. */
  function Ahead(seen: set<string>, key: string, n: nat): set<string> {
    set s | s in seen && !(exists m: nat :: m < n && s == key + Suffix(m))
  }

  lemma AheadShrinks(seen: set<string>, key: string, n: nat)
    requires key + Suffix(n) in seen
    ensures |Ahead(seen, key, n + 1)| < |Ahead(seen, key, n)|
  {
    var here := key + Suffix(n);
    forall m: nat | m < n ensures here != key + Suffix(m) {
      if here == key + Suffix(m) {
        SuffixInjective(key, n, m);
      }
    }
    assert here in Ahead(seen, key, n) && here !in Ahead(seen, key, n + 1);
    forall s | s in Ahead(seen, key, n + 1) ensures s in Ahead(seen, key, n) {
    }
    Smaller(Ahead(seen, key, n + 1), Ahead(seen, key, n), here);
  }

  lemma Smaller(a: set<string>, b: set<string>, x: string)
    requires a <= b && x in b && x !in a
    ensures |a| < |b|
  {
    assert a <= b - {x};
    SubsetSize(a, b - {x});
  }

  /** The least suffix from n up that is free: the search always ends, because the taken keys are
      finitely many and the suffixes are all different. */
  function LeastFree(seen: set<string>, key: string, n: nat): (r: nat)
    ensures r >= n && key + Suffix(r) !in seen
    ensures forall m :: n <= m < r ==> key + Suffix(m) in seen
    decreases |Ahead(seen, key, n)|
  {
    if key + Suffix(n) in seen then
      AheadShrinks(seen, key, n);
      LeastFree(seen, key, n + 1)
    else n
  }

  /** The names after the pass over a prefix of the rows, and the keys taken by then. */
  datatype Pass = Pass(names: seq<string>, seen: set<string>)

  function Deduped(names: seq<string>): Pass {
    if names == [] then Pass([], {})
    else
      var before := Deduped(names[..|names| - 1]);
      var name := names[|names| - 1];
      var key := Key(name);
      if key !in before.seen then Pass(before.names + [name], before.seen + {key})
      else
        var suffix := Suffix(LeastFree(before.seen, key, 2));
        Pass(before.names + [name + suffix], before.seen + {key + suffix})
  }

  /** deduplicate_category_names, over the rows' names in id order. */
  method Deduplicate(names: seq<string>) returns (renamed: seq<string>)
    ensures renamed == Deduped(names).names
  {
    renamed := [];
    var seen: set<string> := {};
    for i := 0 to |names|
      invariant Deduped(names[..i]) == Pass(renamed, seen)
    {
      assert names[..i + 1][..i] == names[..i];
      var key := Key(names[i]);
      if key !in seen {
        seen := seen + {key};
        renamed := renamed + [names[i]];
        continue;
      }
      var suffix: nat := 2;
      while key + Suffix(suffix) in seen
        invariant LeastFree(seen, key, suffix) == LeastFree(seen, key, 2)
        decreases |Ahead(seen, key, suffix)|
      {
        AheadShrinks(seen, key, suffix);
        suffix := suffix + 1;
      }
      renamed := renamed + [names[i] + Suffix(suffix)];
      seen := seen + {key + Suffix(suffix)};
    }
    assert names[..|names|] == names;
  }

  // ------------------------------------------------------------------------
  // What the pass promises
  // ------------------------------------------------------------------------

  /** Names that differ however they are cased. */
  predicate Distinct(names: seq<string>) {
    forall i, j :: 0 <= i < j < |names| ==> Lower(names[i]) != Lower(names[j])
  }

  /** The name is not empty and does not end in white space. */
  predicate Tidy(name: string) {
    name != "" && !IsSpace(name[|name| - 1])
  }

  lemma {:induction false} TrimStartOfLower(s: string)
    ensures TrimStart(Lower(s)) == Lower(TrimStart(s))
  {
    if s != [] {
      assert Lower(s)[1..] == Lower(s[1..]);
      TrimStartOfLower(s[1..]);
    }
  }

  lemma {:induction false} TidyTrims(name: string)
    requires Tidy(name)
    ensures Tidy(TrimStart(name)) && TrimEnd(TrimStart(name)) == TrimStart(name)
  {
    if IsSpace(name[0]) {
      assert |name| > 1 && name[1..][|name| - 2] == name[|name| - 1];
      TidyTrims(name[1..]);
    }
  }

  lemma {:induction false} TrimStartKeepsTail(s: string, tail: string)
    requires TrimStart(s) != ""
    ensures TrimStart(s + tail) == TrimStart(s) + tail
  {
    if s != [] && IsSpace(s[0]) {
      assert (s + tail)[1..] == s[1..] + tail;
      TrimStartKeepsTail(s[1..], tail);
    }
  }

  lemma LowerOfSuffixed(s: string, n: nat)
    ensures Lower(s + Suffix(n)) == Lower(s) + Suffix(n)
  {
    var suffix := Suffix(n);
    forall i | 0 <= i < |suffix| ensures LowerChar(suffix[i]) == suffix[i] {
      if 2 <= i < |suffix| - 1 {
        assert suffix[i] == Digits(n)[i - 2];
      }
    }
  }

  /** The name a tidy row ends up with is told apart by the key it takes. */
  lemma TakenKey(name: string, n: nat)
    requires Tidy(name)
    ensures TrimStart(Lower(name)) == Key(name)
    ensures TrimStart(Lower(name + Suffix(n))) == Key(name) + Suffix(n)
  {
    TidyTrims(name);
    TrimStartOfLower(name);
    TrimStartKeepsTail(name, Suffix(n));
    TrimStartOfLower(name + Suffix(n));
    LowerOfSuffixed(TrimStart(name), n);
  }

  /** Every row is kept, in order, and keeps its own name in front of any suffix. */
  lemma {:induction false} RowsAreKept(names: seq<string>)
    ensures var out := Deduped(names).names;
      |out| == |names| && forall i :: 0 <= i < |names| ==>
        out[i] == names[i] || exists n :: n >= 2 && out[i] == names[i] + Suffix(n)
    decreases |names|
  {
    if names != [] {
      RowsAreKept(names[..|names| - 1]);
    }
  }

  /** What the names of a pass are told apart by. */
  function Taken(names: seq<string>): set<string> {
    set i | 0 <= i < |names| :: TrimStart(Lower(names[i]))
  }

  lemma TakenSnoc(names: seq<string>, last: string)
    ensures Taken(names + [last]) == Taken(names) + {TrimStart(Lower(last))}
  {
    var all := names + [last];
    assert all[|names|] == last;
    forall x | x in Taken(names) ensures x in Taken(all) {
      var i :| 0 <= i < |names| && x == TrimStart(Lower(names[i]));
      assert all[i] == names[i];
    }
  }

  /** One tidy row takes a key nobody had, and keeps its name exactly when its own was free. */
  lemma OneRow(names: seq<string>)
    requires names != [] && Tidy(names[|names| - 1])
    ensures var before, after := Deduped(names[..|names| - 1]), Deduped(names);
      && after.names != [] && after.names[..|after.names| - 1] == before.names
      && var last, out := names[|names| - 1], after.names[|after.names| - 1];
      && TrimStart(Lower(out)) !in before.seen
      && after.seen == before.seen + {TrimStart(Lower(out))}
      && (out == last <==> Key(last) !in before.seen)
  {
    var before, last := Deduped(names[..|names| - 1]), names[|names| - 1];
    var n := if Key(last) in before.seen then LeastFree(before.seen, Key(last), 2) else 2;
    TakenKey(last, n);
    assert |last + Suffix(n)| > |last|;
  }

  lemma {:induction false} SeenIsTaken(names: seq<string>)
    requires forall i :: 0 <= i < |names| ==> Tidy(names[i])
    ensures Deduped(names).seen == Taken(Deduped(names).names)
    decreases |names|
  {
    if names != [] {
      SeenIsTaken(names[..|names| - 1]);
      OneRow(names);
      var out := Deduped(names).names;
      TakenSnoc(Deduped(names[..|names| - 1]).names, out[|out| - 1]);
      assert out == out[..|out| - 1] + [out[|out| - 1]];
    }
  }

  /** Tidy names come out pairwise distinct, however they are cased. */
  lemma {:induction false} TidyNamesComeOutDistinct(names: seq<string>)
    requires forall i :: 0 <= i < |names| ==> Tidy(names[i])
    ensures |Deduped(names).names| == |names| && Distinct(Deduped(names).names)
    decreases |names|
  {
    RowsAreKept(names);
    if names != [] {
      var init := names[..|names| - 1];
      TidyNamesComeOutDistinct(init);
      SeenIsTaken(init);
      OneRow(names);
      var before, out := Deduped(init).names, Deduped(names).names;
      forall i, j | 0 <= i < j < |out| ensures Lower(out[i]) != Lower(out[j]) {
        assert out[i] == before[i];
        if j < |before| {
          assert out[j] == before[j];
        } else {
          assert TrimStart(Lower(before[i])) in Taken(before);
        }
      }
    }
  }

  /** Later rows do not touch what the pass did to earlier ones. */
  lemma {:induction false} PrefixOfPass(names: seq<string>, i: nat)
    requires i <= |names|
    ensures |Deduped(names).names| == |names| && Deduped(names).names[..i] == Deduped(names[..i]).names
    decreases |names|
  {
    RowsAreKept(names);
    if i < |names| {
      var init := names[..|names| - 1];
      PrefixOfPass(init, i);
      assert init[..i] == names[..i];
      assert Deduped(names).names[..|names| - 1] == Deduped(init).names;
    } else {
      assert names[..i] == names;
    }
  }

  /** Names that differ in ASCII case alone. */
  predicate SameButCase(s: string, t: string) {
    |s| == |t| && forall i :: 0 <= i < |s| ==>
      || s[i] == t[i]
      || ('A' <= s[i] <= 'Z' && t[i] as int == s[i] as int + 32)
      || ('A' <= t[i] <= 'Z' && s[i] as int == t[i] as int + 32)
  }

  lemma {:induction false} TrimEndOfLower(s: string)
    ensures TrimEnd(Lower(s)) == Lower(TrimEnd(s))
    decreases |s|
  {
    if s != [] {
      assert Lower(s)[..|s| - 1] == Lower(s[..|s| - 1]);
      TrimEndOfLower(s[..|s| - 1]);
    }
  }

  /** Names that differ in case alone are one name, and white space around a name is not part of
      it. */
  lemma CaseAndSpaceDoNotCount(s: string, t: string)
    ensures SameButCase(s, t) ==> Key(s) == Key(t) && !Distinct([s, t])
    ensures forall c :: c in {' ', '\t', '\n', '\U{B}', '\U{C}', '\r', '\U{1C}', '\U{1D}', '\U{1E}', '\U{1F}'} ==>
      Key([c] + s) == Key(s) == Key(s + [c])
  {
    if SameButCase(s, t) {
      assert Lower(s) == Lower(t);
      KeyOfLower(s);
      KeyOfLower(t);
      assert Lower([s, t][0]) == Lower([s, t][1]);
    }
    forall c | IsSpace(c) ensures Key([c] + s) == Key(s) == Key(s + [c]) {
      assert ([c] + s)[1..] == s;
      SpaceAfter(s, c);
    }
  }

  lemma KeyOfLower(s: string)
    ensures Key(s) == TrimEnd(TrimStart(Lower(s)))
  {
    TrimStartOfLower(s);
    TrimEndOfLower(TrimStart(s));
  }

  lemma SpaceAfter(s: string, c: char)
    requires IsSpace(c)
    ensures Key(s + [c]) == Key(s)
  {
    if TrimStart(s) == "" {
      TrimStartOfBlank(s, [c]);
      assert [c][1..] == "";
      assert TrimStart([c]) == "";
    } else {
      TrimStartKeepsTail(s, [c]);
      var t := TrimStart(s);
      assert (t + [c])[..|t + [c]| - 1] == t;
    }
  }

  // ------------------------------------------------------------------------
  // First holders
  // ------------------------------------------------------------------------

  /** The row is the first whose name has its key. */
  predicate FirstHolder(names: seq<string>, i: nat) {
    i < |names| && forall j :: 0 <= j < i ==> Key(names[j]) != Key(names[i])
  }

  /** w is what one of u's later holders would be called. */
  ghost predicate Shadows(u: string, w: string) {
    exists n: nat :: n >= 2 && Key(w) == Key(u) + Suffix(n)
  }

  /** Any row at all keeps its name exactly when its key was free. */
  lemma KeepsItsNameIfFree(names: seq<string>, i: nat)
    requires i < |names|
    ensures |Deduped(names).names| == |names|
    ensures Deduped(names).names[i] == names[i] <==> Key(names[i]) !in Deduped(names[..i]).seen
  {
    var upto := names[..i + 1];
    assert upto[..i] == names[..i] && upto[i] == names[i];
    PrefixOfPass(names, i + 1);
    RowsAreKept(names[..i]);
    var before, out := Deduped(names[..i]), Deduped(upto).names;
    assert Deduped(names).names[..i + 1] == out && |out| == i + 1;
    assert Deduped(names).names[i] == out[i];
    var n := if Key(names[i]) in before.seen then LeastFree(before.seen, Key(names[i]), 2) else 2;
    assert |names[i] + Suffix(n)| > |names[i]|;
  }

  /** A key is taken by an earlier row's own name, or as the suffixed form of one. */
  lemma {:induction false} TakenBySomeRow(names: seq<string>, key: string) returns (j: nat, n: nat)
    requires key in Deduped(names).seen
    ensures j < |names| && (key == Key(names[j]) || (n >= 2 && key == Key(names[j]) + Suffix(n)))
    decreases |names|
  {
    var init := names[..|names| - 1];
    if key in Deduped(init).seen {
      j, n := TakenBySomeRow(init, key);
      assert init[j] == names[j];
    } else {
      j := |names| - 1;
      var seen := Deduped(init).seen;
      n := if Key(names[j]) in seen then LeastFree(seen, Key(names[j]), 2) else 2;
    }
  }

  function Copies(u: string, n: nat): seq<string> {
    seq(n, i => u)
  }

  /** n rows of one name take its key and its suffixes up to n, and no further ones. */
  lemma {:induction false} CopiesTakeSuffixes(u: string, n: nat)
    requires n >= 1
    ensures Key(u) in Deduped(Copies(u, n)).seen
    ensures forall k: nat :: k >= 2 ==> (Key(u) + Suffix(k) in Deduped(Copies(u, n)).seen <==> k <= n)
    decreases n
  {
    var names := Copies(u, n);
    var init := names[..n - 1];
    assert init == Copies(u, n - 1);
    if n == 1 {
      assert Deduped(names).seen == {Key(u)};
      forall k: nat ensures Key(u) + Suffix(k) != Key(u) {
        assert |Key(u) + Suffix(k)| > |Key(u)|;
      }
    } else {
      CopiesTakeSuffixes(u, n - 1);
      NextCopy(u, n, Deduped(Copies(u, n - 1)).seen);
      forall k: nat | k >= 2 && Key(u) + Suffix(k) == Key(u) + Suffix(n) ensures k == n {
        SuffixInjective(Key(u), k, n);
      }
    }
  }

  lemma NextCopy(u: string, n: nat, seen: set<string>)
    requires n >= 2 && seen == Deduped(Copies(u, n - 1)).seen && Key(u) in seen
    requires forall k: nat :: k >= 2 ==> (Key(u) + Suffix(k) in seen <==> k <= n - 1)
    ensures Deduped(Copies(u, n)).seen == seen + {Key(u) + Suffix(n)}
  {
    var names := Copies(u, n);
    assert names[..n - 1] == Copies(u, n - 1) && names[n - 1] == u;
    var r := LeastFree(seen, Key(u), 2);
    assert Key(u) + Suffix(n) !in seen;
    assert r == n;
  }

  /** After enough rows of u, the first holder of a name that shadows it is renamed. */
  lemma ShadowIsRenamed(u: string, w: string, n: nat)
    requires n >= 2 && Key(w) == Key(u) + Suffix(n)
    ensures FirstHolder(Copies(u, n) + [w], n) && n < |Deduped(Copies(u, n) + [w]).names|
    ensures Deduped(Copies(u, n) + [w]).names[n] != w
  {
    var names := Copies(u, n) + [w];
    assert names[..n] == Copies(u, n) && names[n] == w;
    assert |Key(w)| > |Key(u)|;
    CopiesTakeSuffixes(u, n);
    KeepsItsNameIfFree(names, n);
  }

  /** Exactly which stocks of names let every first holder keep its name, in whatever order and
      number they occur: those in which no name is another's name with a suffix. */
  lemma FirstHoldersKeepNamesIff(stock: iset<string>)
    ensures (forall names: seq<string>, i: nat ::
               (forall name :: name in names ==> name in stock) && FirstHolder(names, i) ==>
                 i < |Deduped(names).names| && Deduped(names).names[i] == names[i])
      <==> !(exists u, w :: u in stock && w in stock && Shadows(u, w))
  {
    if u, w :| u in stock && w in stock && Shadows(u, w) {
      var n: nat :| n >= 2 && Key(w) == Key(u) + Suffix(n);
      ShadowIsRenamed(u, w, n);
      assert forall name :: name in Copies(u, n) + [w] ==> name in stock;
    } else {
      forall names: seq<string>, i: nat | (forall name :: name in names ==> name in stock) && FirstHolder(names, i)
        ensures i < |Deduped(names).names| && Deduped(names).names[i] == names[i]
      {
        FirstHolderKeeps(stock, names, i);
      }
    }
  }

  lemma FirstHolderKeeps(stock: iset<string>, names: seq<string>, i: nat)
    requires forall name :: name in names ==> name in stock
    requires FirstHolder(names, i)
    requires forall u, w :: u in stock && w in stock ==> !Shadows(u, w)
    ensures i < |Deduped(names).names| && Deduped(names).names[i] == names[i]
  {
    KeepsItsNameIfFree(names, i);
    forall j | 0 <= j < i ensures names[..i][j] == names[j] && !Shadows(names[j], names[i]) {
      assert names[j] in names && names[i] in names;
    }
    if Key(names[i]) in Deduped(names[..i]).seen {
      var j, n := TakenBySomeRow(names[..i], Key(names[i]));
      assert false;
    }
  }

  // ------------------------------------------------------------------------
  // Where the promise stops
  // ------------------------------------------------------------------------

  lemma SuffixTwo()
    ensures Suffix(2) == " (2)"
  {
    assert Digits(2) == "2";
  }

  /** Two rows of one name: the second takes the suffix. */
  lemma TwoOfAName(w: string)
    ensures Deduped([w, w]) == Pass([w, w + Suffix(2)], {Key(w), Key(w) + Suffix(2)})
  {
    var one, two := [w], [w, w];
    assert one[..0] == [] && two[..1] == one;
    assert Deduped(one) == Pass([w], {Key(w)});
    assert |Suffix(2)| > 0;
    assert LeastFree({Key(w)}, Key(w), 2) == 2;
  }

  /** The third row is the first to hold its name, and is renamed all the same: the second row
      was given that name. */
  lemma FirstHolderCanBeRenamed(w: string)
    requires Tidy(w)
    ensures exists n :: n >= 2 && Deduped([w, w, w + Suffix(2)]).names == [w, w + Suffix(2), w + Suffix(2) + Suffix(n)]
  {
    var names := [w, w, w + Suffix(2)];
    TwoOfAName(w);
    TakenKey(w, 2);
    TakenKey(w + Suffix(2), 2);
    assert names[..2] == [w, w];
    assert Key(names[2]) in Deduped([w, w]).seen;
  }

  /** A name that ends in white space, or is empty, is compared without the space and suffixed
      with it: the row that already bears the suffixed name is then not recognised. */
  lemma UntidyNamesCollide(w: string)
    requires !Tidy(w)
    ensures !Distinct(Deduped([w, w, w + Suffix(2)]).names)
  {
    var names := [w, w, w + Suffix(2)];
    TwoOfAName(w);
    UntidyKeyIsNew(w);
    assert names[..2] == [w, w];
    var out := Deduped(names).names;
    assert out == [w, w + Suffix(2), w + Suffix(2)];
    assert Lower(out[1]) == Lower(out[2]);
  }

  lemma {:induction false} TrimEndOfBlank(s: string)
    requires s != "" && IsSpace(s[|s| - 1])
    ensures |TrimEnd(s)| < |s|
  {
  }

  lemma {:induction false} TrimStartOfBlank(s: string, tail: string)
    requires TrimStart(s) == ""
    ensures TrimStart(s + tail) == TrimStart(tail)
  {
    if s == [] {
      assert s + tail == tail;
    } else {
      assert (s + tail)[1..] == s[1..] + tail;
      TrimStartOfBlank(s[1..], tail);
    }
  }

  lemma {:induction false} TrimStartKeepsLast(s: string)
    requires TrimStart(s) != ""
    ensures s != "" && TrimStart(s)[|TrimStart(s)| - 1] == s[|s| - 1]
  {
    if s != [] && IsSpace(s[0]) {
      TrimStartKeepsLast(s[1..]);
    }
  }

  lemma UntidyKeyIsNew(w: string)
    requires !Tidy(w)
    ensures Key(w + Suffix(2)) !in {Key(w), Key(w) + Suffix(2)}
  {
    SuffixTwo();
    var t := TrimStart(w);
    if t == "" {
      TrimStartOfBlank(w, Suffix(2));
      assert Suffix(2)[1..] == "(2)";
      assert TrimStart(Suffix(2)) == "(2)";
      assert TrimEnd("(2)") == "(2)";
      assert |Key(w + Suffix(2))| == 3 && |Key(w)| == 0;
    } else {
      TrimStartKeepsTail(w, Suffix(2));
      TrimStartKeepsLast(w);
      TrimEndOfBlank(t);
      assert (t + Suffix(2))[|t| + 3] == ')';
      assert TrimEnd(t + Suffix(2)) == t + Suffix(2);
      assert |Key(w + Suffix(2))| == |t| + 4 && |Key(w)| < |t|;
    }
  }

  /** Exactly which names the migration can be trusted with: adding a name to any mixture of tidy
      ones leaves all results distinct if and only if it is tidy itself. */
  lemma TidyIsExact(w: string)
    ensures Tidy(w) <==>
      forall names: seq<string> :: (forall n :: n in names ==> n == w || Tidy(n)) ==> Distinct(Deduped(names).names)
  {
    if Tidy(w) {
      forall names: seq<string> | forall n :: n in names ==> n == w || Tidy(n) ensures Distinct(Deduped(names).names) {
        forall i | 0 <= i < |names| ensures Tidy(names[i]) {
          assert names[i] in names;
        }
        TidyNamesComeOutDistinct(names);
      }
    } else {
      UntidyNamesCollide(w);
      assert Tidy(w + Suffix(2));
      var names := [w, w, w + Suffix(2)];
      assert forall n :: n in names ==> n == w || Tidy(n);
    }
  }
}
