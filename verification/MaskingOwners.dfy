/**
 What masking shows of an address's owner, the part before its `@`, wherever the
 address stands in a text.
 */
module MaskingOwners {
  import opened Collections
  import opened Text
  import opened Masking

  /** A notion of letters and digits to which neither `@` nor any delimiter belongs. */
  ghost predicate IsAlnum(alnum: CharClass) {
    forall c :: c == '@' || IsDelimiter(c) ==> !alnum(c)
  }

  // ----- which characters of a word stay -----------------------------------

  /** Where the first letter or digit of a word is. */
  function Lead(word: string, alnum: CharClass): (n: nat)
    ensures n <= |word|
  {
    FrontLength(word, alnum);
    |word| - |DropFront(word, alnum)|
  }

  lemma {:induction false} FrontLength(word: string, alnum: CharClass)
    ensures |DropFront(word, alnum)| <= |word|
  {
    if word != [] && !alnum(word[0]) {
      FrontLength(word[1..], alnum);
    }
  }

  /** Where the `@` of a word's address is. */
  function AddressEnd(word: string, alnum: CharClass): nat {
    Lead(word, alnum) + |TakeUntil(Bare(word, alnum), IsAt)|
  }

  lemma UntilAt(bare: string, at: nat)
    requires AtIs(bare, at)
    ensures |TakeUntil(bare, IsAt)| == at
  {
    TakesUpTo(bare, at);
  }

  /** A masked word is the word with stars for just the characters that do not stay. */
  lemma MaskedPositions(word: string, alnum: CharClass)
    requires !alnum('@')
    ensures var lo, hi := Lead(word, alnum) + 1, AddressEnd(word, alnum);
      if IsAddress(Bare(word, alnum))
      then lo <= hi < |word| && word[hi] == '@' && MaskWord(word, alnum) == word[..lo] + "***" + word[hi..]
      else MaskWord(word, alnum) == word
  {
    var bare := Bare(word, alnum);
    if IsAddress(bare) {
      var pre, post := Decompose(word, alnum);
      var at := FirstAt(bare);
      UntilAt(bare, at);
      MaskedWhole(word, alnum, pre, bare, post, at);
    }
  }

  lemma LeadOf(pre: string, bare: string, post: string, alnum: CharClass)
    requires NoneOf(pre, alnum) && Edged(bare, alnum)
    ensures Lead(pre + bare + post, alnum) == |pre|
  {
    assert pre + bare + post == pre + (bare + post);
    DropFrontOf(pre, bare + post, alnum);
  }

  lemma CutWhole(pre: string, bare: string, post: string, at: nat)
    requires 0 < at < |bare|
    ensures var word := pre + bare + post;
      word[..|pre| + 1] == pre + [bare[0]] && word[|pre| + at..] == bare[at..] + post
  {}

  lemma MaskedWhole(word: string, alnum: CharClass, pre: string, bare: string, post: string, at: nat)
    requires !alnum('@') && NoneOf(pre, alnum) && NoneOf(post, alnum) && Edged(bare, alnum) && AtIs(bare, at)
    requires word == pre + bare + post
    ensures var lo, hi := |pre| + 1, |pre| + at;
      Lead(word, alnum) == |pre| && lo <= hi < |word| && word[hi] == '@'
      && MaskWord(word, alnum) == word[..lo] + "***" + word[hi..]
  {
    LeadOf(pre, bare, post, alnum);
    MaskedBare(pre, bare, post, at, alnum);
    assert at > 0;
    CutWhole(pre, bare, post, at);
  }

  // ----- a text in pieces --------------------------------------------------

  /** A text on its own, or cut off at a delimiter. */
  predicate EndsAtDelimiter(a: string) {
    a == [] || IsDelimiter(a[|a| - 1])
  }

  predicate StartsAtDelimiter(b: string) {
    b == [] || IsDelimiter(b[0])
  }

  lemma MapAfterDelimiter(init: string, d: char, x: string, f: string -> string)
    requires IsDelimiter(d) && f([]) == []
    ensures MapWords(init + [d] + x, f) == MapWords(init + [d], f) + MapWords(x, f)
  {
    MapWordsAt(init, d, x, f);
    MapWordsAt(init, d, [], f);
    MapOneWord([], f);
    assert init + [d] + [] == init + [d] && [d] + [] == [d];
    Assoc(MapWords(init, f), [d], MapWords(x, f));
  }

  /** After a delimiter a text can be cut. */
  lemma MapAfter(a: string, x: string, f: string -> string)
    requires EndsAtDelimiter(a) && f([]) == []
    ensures MapWords(a + x, f) == MapWords(a, f) + MapWords(x, f)
  {
    if a == [] {
      MapOneWord([], f);
      assert a + x == x;
    } else {
      assert a == a[..|a| - 1] + [a[|a| - 1]];
      MapAfterDelimiter(a[..|a| - 1], a[|a| - 1], x, f);
    }
  }

  lemma MapDelimiter(d: char, x: string, f: string -> string)
    requires IsDelimiter(d) && f([]) == []
    ensures MapWords([d] + x, f) == [d] + MapWords(x, f)
  {
    assert [d] + x == [] + [d] + x;
    MapFirstWord([], d, x, f);
  }

  lemma MapToDelimiter(word: string, d: char, x: string, f: string -> string)
    requires IsWord(word) && IsDelimiter(d) && f([]) == []
    ensures MapWords(word + ([d] + x), f) == f(word) + MapWords([d] + x, f)
  {
    Assoc(word, [d], x);
    MapFirstWord(word, d, x, f);
    MapDelimiter(d, x, f);
    Assoc(f(word), [d], MapWords(x, f));
  }

  /** Before a delimiter a word can be cut off; the delimiter stays. */
  lemma MapBefore(word: string, b: string, f: string -> string)
    requires IsWord(word) && StartsAtDelimiter(b) && f([]) == []
    ensures MapWords(word + b, f) == f(word) + MapWords(b, f)
    ensures b != [] ==> [b[0]] <= MapWords(b, f)
  {
    if b == [] {
      MapOneWord([], f);
      MapOneWord(word, f);
      assert word + b == word;
    } else {
      assert b == [b[0]] + b[1..];
      MapToDelimiter(word, b[0], b[1..], f);
      MapDelimiter(b[0], b[1..], f);
    }
  }

  /** A word within a text is masked on its own. */
  lemma MaskedInText(a: string, word: string, b: string, alnum: CharClass)
    requires EndsAtDelimiter(a) && IsWord(word) && StartsAtDelimiter(b)
    ensures MaskText(a + (word + b), alnum) == MaskText(a, alnum) + (MaskWord(word, alnum) + MaskText(b, alnum))
  {
    MapAfter(a, word + b, Masker(alnum));
    MapBefore(word, b, Masker(alnum));
  }

  // ----- the owner within a word -------------------------------------------

  /** What stands before the owner in its word has no `@` past its first letter, and
      a letter of it or the owner's first comes before the stars. */
  predicate Leads(p: string, local: string, alnum: CharClass)
    requires local != []
  {
    '@' !in DropFront(p, alnum) && (DropFront(p, alnum) != [] || alnum(local[0]))
  }

  lemma {:induction false} FrontAcross(a: string, b: string, alnum: CharClass)
    ensures DropFront(a + b, alnum) == if DropFront(a, alnum) == [] then DropFront(b, alnum) else DropFront(a, alnum) + b
  {
    if a == [] {
      assert a + b == b;
    } else if !alnum(a[0]) {
      FrontAcross(a[1..], b, alnum);
      assert (a + b)[1..] == a[1..] + b;
    }
  }

  /** Letters and digits keep what stands before them. */
  lemma {:induction false} BackAcross(a: string, b: string, alnum: CharClass)
    ensures DropBack(a + b, alnum) == if NoneOf(b, alnum) then DropBack(a, alnum) else a + DropBack(b, alnum)
  {
    if b == [] {
      assert a + b == a;
    } else {
      var init := b[..|b| - 1];
      assert (a + b)[..|a + b| - 1] == a + init && b == init + [b[|b| - 1]];
      if !alnum(b[|b| - 1]) {
        BackAcross(a, init, alnum);
      }
    }
  }

  lemma {:induction false} BackIsPrefix(s: string, alnum: CharClass)
    ensures DropBack(s, alnum) <= s
  {
    if s != [] && !alnum(s[|s| - 1]) {
      BackIsPrefix(s[..|s| - 1], alnum);
    }
  }

  lemma {:induction false} TakeWhole(s: string, rest: string)
    requires '@' !in s && rest != [] && rest[0] == '@'
    ensures TakeUntil(s + rest, IsAt) == s
  {
    if s == [] {
      assert s + rest == rest;
    } else {
      TakeWhole(s[1..], rest);
      assert (s + rest)[1..] == s[1..] + rest;
    }
  }

  /** A word that goes on from `u` starts its address in `u`, if `u` has a letter. */
  lemma LeadsAlike(u: string, t: string, alnum: CharClass)
    ensures DropFront(u, alnum) == [] ==> Lead(u + t, alnum) >= |u|
    ensures var q := DropFront(u, alnum);
      q != [] ==> Lead(u + t, alnum) == |u| - |q| && DropFront(u + t, alnum) == q + t
  {
    FrontAcross(u, t, alnum);
    FrontLength(t, alnum);
    FrontLength(u, alnum);
  }

  /** What `q` and a text that goes on from it begin with has the same first `@`. */
  lemma SameFirstAt(q: string, t: string, bare: string)
    requires '@' in q && '@' in bare && bare <= q + t
    ensures TakeUntil(bare, IsAt) == TakeUntil(q, IsAt)
  {
    var at := FirstAt(q);
    var at' := FirstAt(bare);
    TakesUpTo(q, at);
    TakesUpTo(bare, at');
    assert (q + t)[at'] == '@' && (q + t)[at] == '@';
    assert forall k :: 0 <= k < at ==> (q + t)[k] == q[..at][k];
    assert forall k :: 0 <= k < at' ==> (q + t)[k] == bare[..at'][k];
  }

  /** Where `u` has its first letter or digit, and its first `@` after that. */
  lemma EndsAlike(u: string, t: string, alnum: CharClass)
    requires '@' in DropFront(u, alnum) && IsAddress(Bare(u + t, alnum))
    ensures var (q, w) := (DropFront(u, alnum), u + t);
      Lead(w, alnum) == |u| - |q| && AddressEnd(w, alnum) == |u| - |q| + |TakeUntil(q, IsAt)|
  {
    var q := DropFront(u, alnum);
    LeadsAlike(u, t, alnum);
    BackIsPrefix(q + t, alnum);
    SameFirstAt(q, t, Bare(u + t, alnum));
  }

  lemma NoLetterAfter(v: string, r: string, alnum: CharClass)
    requires !alnum('@') && '@' !in DropFront(v, alnum) && DropFront(v, alnum) != [] && NoneOf(r, alnum)
    ensures !IsAddress(Bare(v + (['@'] + r), alnum))
  {
    var g := DropFront(v, alnum);
    LeadsAlike(v, ['@'] + r, alnum);
    BackAcross(g, ['@'] + r, alnum);
    BackIsPrefix(g, alnum);
  }

  lemma LetterAfter(v: string, r: string, alnum: CharClass)
    requires !alnum('@') && '@' !in DropFront(v, alnum) && DropFront(v, alnum) != [] && !NoneOf(r, alnum)
    ensures IsAddress(Bare(v + (['@'] + r), alnum)) && AddressEnd(v + (['@'] + r), alnum) == |v|
  {
    var (g, back) := (DropFront(v, alnum), DropBack(r, alnum));
    LeadsAlike(v, ['@'] + r, alnum);
    Assoc(g, ['@'], r);
    BackAcross(g + ['@'], r, alnum);
    var letter := LastLetter(r, alnum);
    Assoc(g, ['@'], back);
    TakeWhole(g, ['@'] + back);
    var pre := Front(v, alnum);
    AddressOf(g, back, alnum);
  }

  lemma AddressOf(g: string, back: string, alnum: CharClass)
    requires !alnum('@') && g != [] && alnum(g[0]) && back != [] && alnum(back[|back| - 1])
    ensures IsAddress(g + (['@'] + back))
  {
    assert (g + (['@'] + back))[|g|] == '@';
  }

  /** The word `v` + `@` + `r` is an address if `v` has a letter and so has `r`. */
  lemma AddressAt(v: string, r: string, alnum: CharClass)
    requires !alnum('@') && '@' !in DropFront(v, alnum) && DropFront(v, alnum) != []
    ensures IsAddress(Bare(v + (['@'] + r), alnum)) <==> !NoneOf(r, alnum)
    ensures !NoneOf(r, alnum) ==> AddressEnd(v + (['@'] + r), alnum) == |v|
  {
    if NoneOf(r, alnum) {
      NoLetterAfter(v, r, alnum);
    } else {
      LetterAfter(v, r, alnum);
    }
  }

  /** Something with a letter still ends with one when its end is dropped. */
  lemma {:induction false} LastLetter(s: string, alnum: CharClass) returns (last: char)
    requires !NoneOf(s, alnum)
    ensures var back := DropBack(s, alnum); back != [] && back[|back| - 1] == last && alnum(last)
  {
    last := s[|s| - 1];
    if !alnum(last) {
      assert s == s[..|s| - 1] + [last];
      last := LastLetter(s[..|s| - 1], alnum);
    }
  }


  // ----- the shape of a masked word ----------------------------------------

  /** A masked word is as it was, or has stars from `lo` to `hi`. */
  datatype Shape = Whole | Stars(lo: nat, hi: nat)

  function ShapeOf(word: string, alnum: CharClass): Shape {
    if IsAddress(Bare(word, alnum)) then Stars(Lead(word, alnum) + 1, AddressEnd(word, alnum)) else Whole
  }

  predicate Fits(shape: Shape, word: string) {
    shape.Stars? ==> shape.lo <= shape.hi < |word|
  }

  function Render(word: string, shape: Shape): string
    requires Fits(shape, word)
  {
    match shape
    case Whole => word
    case Stars(lo, hi) => word[..lo] + "***" + word[hi..]
  }

  lemma MaskWordRenders(word: string, alnum: CharClass)
    requires !alnum('@')
    ensures Fits(ShapeOf(word, alnum), word) && MaskWord(word, alnum) == Render(word, ShapeOf(word, alnum))
  {
    MaskedPositions(word, alnum);
  }

  /** Stars after `u`, or none. */
  predicate After(u: string, shape: Shape) {
    shape.Stars? ==> |u| < shape.lo
  }

  lemma ShapeWithoutLetter(u: string, v: string, alnum: CharClass)
    requires DropFront(u, alnum) == []
    ensures After(u, ShapeOf(u + v, alnum))
  {
    LeadsAlike(u, v, alnum);
  }

  /** Where the stars of an address go whose `@` is in `u`. */
  function StarsOf(u: string, alnum: CharClass): Shape
    requires |DropFront(u, alnum)| <= |u|
  {
    var q := DropFront(u, alnum);
    Stars(|u| - |q| + 1, |u| - |q| + |TakeUntil(q, IsAt)|)
  }

  lemma ShapeWithAt(u: string, v: string, alnum: CharClass)
    requires '@' in DropFront(u, alnum)
    ensures |DropFront(u, alnum)| <= |u|
    ensures ShapeOf(u + v, alnum) == Whole || ShapeOf(u + v, alnum) == StarsOf(u, alnum)
  {
    FrontLength(u, alnum);
    if IsAddress(Bare(u + v, alnum)) {
      EndsAlike(u, v, alnum);
    }
  }

  /** Stars in `u`, from after some character to an `@`, the first since. */
  predicate Within(u: string, shape: Shape) {
    shape.Stars? ==> shape.lo <= shape.hi < |u| && u[shape.hi] == '@' && '@' !in u[shape.lo..shape.hi]
  }

  lemma StarsWithin(u: string, alnum: CharClass)
    requires '@' in DropFront(u, alnum) && !alnum('@')
    ensures |DropFront(u, alnum)| <= |u| && Within(u, StarsOf(u, alnum))
  {
    var q := DropFront(u, alnum);
    var pre := Front(u, alnum);
    var at := FirstAt(q);
    TakesUpTo(q, at);
    assert u[|pre| + 1..|pre| + at] == q[1..at];
    assert forall c :: c in q[1..at] ==> c in q[..at];
  }

  lemma ShapeAt(v: string, r: string, alnum: CharClass)
    requires !alnum('@') && '@' !in DropFront(v, alnum) && DropFront(v, alnum) != []
    ensures |DropFront(v, alnum)| <= |v|
    ensures ShapeOf(v + (['@'] + r), alnum)
         == if NoneOf(r, alnum) then Whole else Stars(|v| - |DropFront(v, alnum)| + 1, |v|)
  {
    FrontLength(v, alnum);
    AddressAt(v, r, alnum);
    LeadsAlike(v, ['@'] + r, alnum);
  }

  /** A word without an `@` past its first letter is no address. */
  lemma ShapeWithoutAt(word: string, alnum: CharClass)
    requires '@' !in DropFront(word, alnum)
    ensures ShapeOf(word, alnum) == Whole
  {
    BackIsPrefix(DropFront(word, alnum), alnum);
  }

  // ----- how a masked text begins ------------------------------------------

  /** `u` with stars from `lo` to `hi`, and then `next`. */
  function StarsIn(u: string, lo: nat, hi: nat, next: char): string
    requires lo <= hi < |u|
  {
    u[..lo] + "***" + u[hi..] + [next]
  }

  lemma BeginsWhole(u: string, v: string, shape: Shape, more: string, next: char)
    requires Fits(shape, u + v) && After(u, shape) && [next] <= v + more
    requires v != [] ==> [next] <= v
    ensures u + [next] <= Render(u + v, shape) + more
  {
    if shape.Stars? {
      assert (u + v)[..shape.lo] == u + v[..shape.lo - |u|];
      assert v[..shape.lo - |u|] == [next] + v[1..shape.lo - |u|];
    } else {
      assert u + v + more == u + (v + more) && v + more == [next] + (v + more)[1..];
    }
  }

  lemma BeginsStarred(u: string, v: string, lo: nat, hi: nat, more: string, next: char)
    requires lo <= hi < |u| && [next] <= v + more
    ensures StarsIn(u, lo, hi, next) <= Render(u + v, Stars(lo, hi)) + more
  {
    assert (u + v)[..lo] == u[..lo] && (u + v)[hi..] == u[hi..] + v;
    assert v + more == [next] + (v + more)[1..];
    assert (u + v)[..lo] + "***" + (u + v)[hi..] + more == StarsIn(u, lo, hi, next) + (v + more)[1..];
  }

  // ----- masked texts that differ ------------------------------------------

  lemma DifferAt(x: string, y: string, s: string, t: string, i: nat)
    requires x <= s && y <= t && i < |x| && i < |y| && x[i] != y[i]
    ensures s != t
  {
    assert s[i] == x[i] && t[i] == y[i];
  }

  /** Stars for what was not three stars give another text. */
  lemma StarsDiffer(u: string, lo: nat, hi: nat, x: char, y: char, s: string, t: string)
    requires Within(u, Stars(lo, hi)) && x != y
    requires StarsIn(u, lo, hi, x) <= s && u + [y] <= t
    ensures s != t
  {
    var starred, plain := StarsIn(u, lo, hi, x), u + [y];
    assert starred[lo] == starred[lo + 1] == starred[lo + 2] == '*' && starred[lo + 3] == '@';
    if hi < lo + 3 {
      DifferAt(starred, plain, s, t, hi);
    } else if hi > lo + 3 {
      assert u[lo + 3] == u[lo..hi][3];
      DifferAt(starred, plain, s, t, lo + 3);
    } else {
      DifferAt(starred, plain, s, t, |u|);
    }
  }

  /** How masked text may begin with `u` and then `next`: with the stars `at`, or none. */
  predicate Begins(u: string, next: char, at: Shape, s: string)
    requires Within(u, at)
  {
    u + [next] <= s || (at.Stars? && StarsIn(u, at.lo, at.hi, next) <= s)
  }

  lemma BeginningsDiffer(u: string, at: Shape, x: char, y: char, s: string, t: string)
    requires Within(u, at) && Begins(u, x, at, s) && Begins(u, y, at, t) && x != y
    ensures s != t
  {
    if u + [x] <= s && u + [y] <= t {
      DifferAt(u + [x], u + [y], s, t, |u|);
    } else if u + [x] <= s {
      StarsDiffer(u, at.lo, at.hi, y, x, t, s);
    } else if u + [y] <= t {
      StarsDiffer(u, at.lo, at.hi, x, y, s, t);
    } else {
      DifferAt(StarsIn(u, at.lo, at.hi, x), StarsIn(u, at.lo, at.hi, y), s, t, at.lo + 3 + |u| - at.hi);
    }
  }

  lemma Beginning(u: string, v: string, shape: Shape, at: Shape, more: string, next: char)
    requires Fits(shape, u + v) && Within(u, at) && (After(u, shape) || shape == at)
    requires [next] <= v + more && (v != [] ==> [next] <= v)
    ensures Begins(u, next, at, Render(u + v, shape) + more)
  {
    if After(u, shape) {
      BeginsWhole(u, v, shape, more, next);
    } else {
      BeginsStarred(u, v, at.lo, at.hi, more, next);
    }
  }

  /** Of two words that go on from `u`, neither has stars that reach past it. */
  lemma SameStars(u: string, v: string, v': string, alnum: CharClass) returns (at: Shape)
    requires !alnum('@')
    requires DropFront(u, alnum) == [] || '@' in DropFront(u, alnum)
          || (ShapeOf(u + v, alnum) == Whole && ShapeOf(u + v', alnum) == Whole)
    ensures Within(u, at)
    ensures After(u, ShapeOf(u + v, alnum)) || ShapeOf(u + v, alnum) == at
    ensures After(u, ShapeOf(u + v', alnum)) || ShapeOf(u + v', alnum) == at
  {
    at := Whole;
    if DropFront(u, alnum) == [] {
      ShapeWithoutLetter(u, v, alnum);
      ShapeWithoutLetter(u, v', alnum);
    } else if '@' in DropFront(u, alnum) {
      StarsWithin(u, alnum);
      ShapeWithAt(u, v, alnum);
      ShapeWithAt(u, v', alnum);
      at := StarsOf(u, alnum);
    }
  }

  /** Two words that go on from `u` differently, with no stars past `u`, are still
      different once masked. */
  lemma NextDiffers(u: string, v: string, more: string, x: char, v': string, more': string, y: char, alnum: CharClass)
    requires !alnum('@') && x != y
    requires [x] <= v + more && (v != [] ==> [x] <= v) && [y] <= v' + more' && (v' != [] ==> [y] <= v')
    requires DropFront(u, alnum) == [] || '@' in DropFront(u, alnum)
          || (ShapeOf(u + v, alnum) == Whole && ShapeOf(u + v', alnum) == Whole)
    ensures MaskWord(u + v, alnum) + more != MaskWord(u + v', alnum) + more'
  {
    var at := SameStars(u, v, v', alnum);
    MaskWordRenders(u + v, alnum);
    MaskWordRenders(u + v', alnum);
    Beginning(u, v, ShapeOf(u + v, alnum), at, more, x);
    Beginning(u, v', ShapeOf(u + v', alnum), at, more', y);
    BeginningsDiffer(u, at, x, y, MaskWord(u + v, alnum) + more, MaskWord(u + v', alnum) + more');
  }

  // ----- the owner in its word ---------------------------------------------

  lemma LedFront(p: string, local: string, alnum: CharClass)
    requires local != [] && '@' !in local
    ensures Leads(p, local, alnum) <==>
      DropFront(p + local[..1], alnum) != [] && '@' !in DropFront(p + local[..1], alnum)
    ensures Leads(p, local, alnum) ==>
      DropFront(p + local, alnum) == DropFront(p + local[..1], alnum) + local[1..]
  {
    FrontAcross(p, local[..1], alnum);
    assert p + local == p + local[..1] + local[1..];
    FrontAcross(p + local[..1], local[1..], alnum);
  }

  lemma LedShape(p: string, local: string, r: string, alnum: CharClass)
    requires !alnum('@') && local != [] && '@' !in local && Leads(p, local, alnum) && !NoneOf(r, alnum)
    ensures var u := p + local[..1];
      0 < |DropFront(u, alnum)| <= |u|
      && ShapeOf(p + local + (['@'] + r), alnum) == Stars(|u| - |DropFront(u, alnum)| + 1, |p + local|)
  {
    LedFront(p, local, alnum);
    FrontLength(p + local[..1], alnum);
    ShapeAt(p + local, r, alnum);
  }

  /** A led owner: its first character at most, and the stars. */
  lemma LedStarred(p: string, local: string, r: string, alnum: CharClass)
    requires !alnum('@') && local != [] && '@' !in local && Leads(p, local, alnum) && !NoneOf(r, alnum)
    ensures var u := p + local[..1];
      0 < |DropFront(u, alnum)| <= |u|
      && MaskWord(p + local + (['@'] + r), alnum) == u[..|u| - |DropFront(u, alnum)| + 1] + ("***@" + r)
  {
    LedShape(p, local, r, alnum);
    MaskWordRenders(p + local + (['@'] + r), alnum);
    StarsToOwner(p, local, |p + local[..1]| - |DropFront(p + local[..1], alnum)| + 1, r);
  }

  lemma StarsToOwner(p: string, local: string, lo: nat, r: string)
    requires local != [] && lo <= |p + local[..1]|
    ensures Render(p + local + (['@'] + r), Stars(lo, |p + local|)) == (p + local[..1])[..lo] + ("***@" + r)
  {
    assert p + local == p + local[..1] + local[1..];
    StarsTo(p + local, p + local[..1], lo, r);
  }

  lemma StarsTo(v: string, u: string, lo: nat, r: string)
    requires u <= v && lo <= |u|
    ensures Render(v + (['@'] + r), Stars(lo, |v|)) == u[..lo] + ("***@" + r)
  {
    assert (v + (['@'] + r))[..lo] == u[..lo] && (v + (['@'] + r))[|v|..] == ['@'] + r;
    assert u[..lo] + "***" + (['@'] + r) == u[..lo] + ("***@" + r);
  }

  lemma LedAlike(p: string, local: string, r: string, alnum: CharClass)
    requires !alnum('@') && local != [] && '@' !in local && Leads(p, local, alnum) && !NoneOf(r, alnum)
    ensures MaskWord(p + local + (['@'] + r), alnum) == MaskWord(p + local[..1] + (['@'] + r), alnum)
  {
    LedStarred(p, local, r, alnum);
    assert local[..1][..1] == local[..1];
    LedStarred(p, local[..1], r, alnum);
  }

  /** The owner in one piece. */
  lemma OwnerInWord(p: string, local: string, r: string, more: string, alnum: CharClass)
    requires !alnum('@') && |local| > 1 && '@' !in local
    ensures MaskWord(p + local + (['@'] + r), alnum) + more == MaskWord(p + local[..1] + (['@'] + r), alnum) + more
      <==> Leads(p, local, alnum) && !NoneOf(r, alnum)
  {
    LedFront(p, local, alnum);
    if Leads(p, local, alnum) && !NoneOf(r, alnum) {
      LedAlike(p, local, r, alnum);
    } else {
      UnledDiffers(p, local, r, more, alnum);
    }
  }

  lemma UnledDiffers(p: string, local: string, r: string, more: string, alnum: CharClass)
    requires !alnum('@') && |local| > 1 && '@' !in local && !(Leads(p, local, alnum) && !NoneOf(r, alnum))
    ensures MaskWord(p + local + (['@'] + r), alnum) + more != MaskWord(p + local[..1] + (['@'] + r), alnum) + more
  {
    var (u, v) := (p + local[..1], local[1..] + (['@'] + r));
    LedFront(p, local, alnum);
    if Leads(p, local, alnum) {
      ShapeAt(u, r, alnum);
      ShapeAt(p + local, r, alnum);
    }
    assert p + local + (['@'] + r) == u + v;
    NextDiffers(u, v, more, local[1], ['@'] + r, more, '@', alnum);
  }

  /** Stars with an `@` after them are not the text they stand for. */
  lemma CutDiffers(v: string, lo: nat, s: string, t: string)
    requires lo < |v| && '@' !in v[lo..] && v[|v| - 1] != '*' && v <= s && v[..lo] + "***@" <= t
    ensures s != t
  {
    var stars := v[..lo] + "***@";
    assert stars[lo] == stars[lo + 1] == stars[lo + 2] == '*' && stars[lo + 3] == '@';
    if lo + 3 < |v| {
      assert v[lo + 3] == v[lo..][3];
      DifferAt(v, stars, s, t, lo + 3);
    } else {
      DifferAt(v, stars, s, t, |v| - 1);
    }
  }

  lemma NoAtPast(pre: string, q: string, more: string)
    requires '@' !in q && '@' !in more && q != []
    ensures '@' !in (pre + q + more)[|pre| + 1..]
  {
    assert (pre + q + more)[|pre| + 1..] == (q + more)[1..];
  }

  /** `u` goes on with `rest` up to a delimiter, or gives way to stars. */
  lemma AgainstStars(u: string, rest: string, r: string, s: string, more: string, alnum: CharClass)
    requires rest != [] && IsDelimiter(rest[|rest| - 1]) && '@' !in rest && u + rest <= s
    requires DropFront(u, alnum) != [] && '@' !in DropFront(u, alnum)
    ensures |DropFront(u, alnum)| <= |u| && s != u[..|u| - |DropFront(u, alnum)| + 1] + ("***@" + r) + more
  {
    var pre := Front(u, alnum);
    var lo := |pre| + 1;
    NoAtPast(pre, DropFront(u, alnum), rest);
    assert (u + rest)[..lo] == u[..lo];
    assert u[..lo] + ("***@" + r) + more == u[..lo] + "***@" + (r + more);
    CutDiffers(u + rest, lo, s, u[..lo] + ("***@" + r) + more);
  }

  /** The owner in pieces, of which the first is `l` and `more` begins with what cut it. */
  lemma OwnerInPieces(p: string, l: string, d: char, more: string, r: string, more': string, alnum: CharClass)
    requires IsAlnum(alnum) && l != [] && '@' !in l && IsDelimiter(d) && [d] <= more
    ensures MaskWord(p + l, alnum) + more != MaskWord(p + l[..1] + (['@'] + r), alnum) + more'
  {
    LedFront(p, l, alnum);
    if Leads(p, l, alnum) && !NoneOf(r, alnum) {
      LedPiece(p, l, d, more, r, more', alnum);
    } else {
      UnledPiece(p, l, d, more, r, more', alnum);
    }
  }

  lemma Unmasked(word: string, alnum: CharClass)
    requires !alnum('@') && '@' !in DropFront(word, alnum)
    ensures MaskWord(word, alnum) == word
  {
    ShapeWithoutAt(word, alnum);
    MaskWordRenders(word, alnum);
  }

  lemma PieceOf(p: string, l: string, d: char, more: string)
    requires l != [] && [d] <= more
    ensures p + l[..1] + (l[1..] + [d]) <= p + l + more
  {
    assert more == [d] + more[1..];
    assert p + l + more == p + l[..1] + (l[1..] + [d]) + more[1..];
  }

  lemma LedAlone(p: string, c: char, r: string, alnum: CharClass)
    requires !alnum('@') && c != '@' && Leads(p, [c], alnum) && !NoneOf(r, alnum)
    ensures var u := p + [c];
      0 < |DropFront(u, alnum)| <= |u| && '@' !in DropFront(u, alnum)
      && MaskWord(u + (['@'] + r), alnum) == u[..|u| - |DropFront(u, alnum)| + 1] + ("***@" + r)
  {
    assert [c][..1] == [c];
    LedFront(p, [c], alnum);
    LedStarred(p, [c], r, alnum);
  }

  lemma LedPiece(p: string, l: string, d: char, more: string, r: string, more': string, alnum: CharClass)
    requires IsAlnum(alnum) && l != [] && '@' !in l && IsDelimiter(d) && [d] <= more
    requires Leads(p, l, alnum) && !NoneOf(r, alnum)
    ensures MaskWord(p + l, alnum) + more != MaskWord(p + l[..1] + (['@'] + r), alnum) + more'
  {
    LedFront(p, l, alnum);
    Unmasked(p + l, alnum);
    assert l[..1] == [l[0]];
    LedAlone(p, l[0], r, alnum);
    PieceOf(p, l, d, more);
    AgainstStars(p + l[..1], l[1..] + [d], r, p + l + more, more', alnum);
  }

  lemma UnledPiece(p: string, l: string, d: char, more: string, r: string, more': string, alnum: CharClass)
    requires IsAlnum(alnum) && l != [] && '@' !in l && IsDelimiter(d) && [d] <= more
    requires !(Leads(p, l, alnum) && !NoneOf(r, alnum))
    ensures MaskWord(p + l, alnum) + more != MaskWord(p + l[..1] + (['@'] + r), alnum) + more'
  {
    var u := p + l[..1];
    LedFront(p, l, alnum);
    if Leads(p, l, alnum) {
      ShapeAt(u, r, alnum);
      ShapeWithoutAt(p + l, alnum);
    }
    assert p + l == u + l[1..];
    var x := if |l| > 1 then l[1] else d;
    assert [x] <= l[1..] + more;
    NextDiffers(u, l[1..], more, x, ['@'] + r, more', '@', alnum);
  }

  // ----- the owner in a text -----------------------------------------------

  /** A text up to its last delimiter, and the part of a word after it. */
  lemma {:induction false} LastWord(left: string) returns (a: string, p: string)
    ensures left == a + p && EndsAtDelimiter(a) && IsWord(p) && p == AfterDelimiters(left)
  {
    if left == [] || IsDelimiter(left[|left| - 1]) {
      a, p := left, [];
    } else {
      a, p := LastWord(left[..|left| - 1]);
      p := p + [left[|left| - 1]];
    }
  }

  /** What a text ends with after its last delimiter. */
  function AfterDelimiters(left: string): string {
    if left == [] || IsDelimiter(left[|left| - 1]) then []
    else AfterDelimiters(left[..|left| - 1]) + [left[|left| - 1]]
  }

  function AddressIn(left: string, local: string, rest: string): string {
    left + local + ['@'] + rest
  }

  /** The first word, and the rest of the text. */
  lemma FirstOf(rest: string) returns (r: string, b: string)
    ensures r == TakeUntil(rest, IsDelimiter) && rest == r + b && IsWord(r) && StartsAtDelimiter(b)
  {
    var word, tail := FirstWord(rest);
    r, b := word, rest[|word|..];
  }

  lemma Cancels(start: string, x: string, y: string)
    ensures start + x == start + y <==> x == y
  {
    assert (start + x)[|start|..] == x && (start + y)[|start|..] == y;
  }

  /** Text that starts after a delimiter keeps its first character. */
  lemma FirstStays(text: string, alnum: CharClass)
    requires !alnum('@') && text != []
    ensures [text[0]] <= MaskText(text, alnum)
  {
    var r, b := FirstOf(text);
    MapBefore(r, b, Masker(alnum));
    if r != [] {
      MaskWordRenders(r, alnum);
      BeginsWhole([], r, ShapeOf(r, alnum), MaskText(b, alnum), text[0]);
      assert [] + r == r && [] + [text[0]] == [text[0]];
    }
  }

  lemma FirstsDiffer(a: string, x: string, y: string, alnum: CharClass)
    requires !alnum('@') && EndsAtDelimiter(a) && x != [] && y != [] && x[0] != y[0]
    ensures MaskText(a + x, alnum) != MaskText(a + y, alnum)
  {
    MapAfter(a, x, Masker(alnum));
    MapAfter(a, y, Masker(alnum));
    FirstStays(x, alnum);
    FirstStays(y, alnum);
    DifferAt([x[0]], [y[0]], MaskText(x, alnum), MaskText(y, alnum), 0);
    Cancels(MaskText(a, alnum), MaskText(x, alnum), MaskText(y, alnum));
  }

  /** An owner that starts with a delimiter. */
  lemma CutAtStart(left: string, local: string, rest: string, alnum: CharClass)
    requires !alnum('@') && |local| > 1 && '@' !in local && IsDelimiter(local[0])
    ensures MaskText(AddressIn(left, local, rest), alnum) != MaskText(AddressIn(left, local[..1], rest), alnum)
  {
    var a := left + local[..1];
    var (x, y) := (local[1..] + ['@'] + rest, ['@'] + rest);
    assert AddressIn(left, local, rest) == a + x && AddressIn(left, local[..1], rest) == a + y;
    FirstsDiffer(a, x, y, alnum);
  }

  lemma AddressPieces(a: string, p: string, local: string, r: string, b: string)
    ensures AddressIn(a + p, local, r + b) == a + (p + local + (['@'] + r) + b)
  {}

  lemma CutPieces(a: string, p: string, l: string, d: char, tail: string, rest: string)
    ensures AddressIn(a + p, l + [d] + tail, rest) == a + (p + l + ([d] + (tail + ['@'] + rest)))
  {}

  /** Two words in the same place. */
  lemma WordsCompare(a: string, word: string, b: string, word': string, b': string, alnum: CharClass)
    requires EndsAtDelimiter(a) && IsWord(word) && StartsAtDelimiter(b) && IsWord(word') && StartsAtDelimiter(b')
    ensures MaskText(a + (word + b), alnum) == MaskText(a + (word' + b'), alnum)
      <==> MaskWord(word, alnum) + MaskText(b, alnum) == MaskWord(word', alnum) + MaskText(b', alnum)
  {
    MaskedInText(a, word, b, alnum);
    MaskedInText(a, word', b', alnum);
    Cancels(MaskText(a, alnum), MaskWord(word, alnum) + MaskText(b, alnum), MaskWord(word', alnum) + MaskText(b', alnum));
  }

  lemma WholeOwner(left: string, local: string, rest: string, alnum: CharClass)
    requires IsAlnum(alnum) && |local| > 1 && '@' !in local && IsWord(local)
    ensures MaskText(AddressIn(left, local, rest), alnum) == MaskText(AddressIn(left, local[..1], rest), alnum)
      <==> Leads(AfterDelimiters(left), local, alnum) && !NoneOf(TakeUntil(rest, IsDelimiter), alnum)
  {
    var a, p := LastWord(left);
    var r, b := FirstOf(rest);
    AddressPieces(a, p, local, r, b);
    AddressPieces(a, p, local[..1], r, b);
    WordsCompare(a, p + local + (['@'] + r), b, p + local[..1] + (['@'] + r), b, alnum);
    OwnerInWord(p, local, r, MaskText(b, alnum), alnum);
  }

  lemma CutOwner(left: string, local: string, rest: string, alnum: CharClass)
    requires IsAlnum(alnum) && local != [] && '@' !in local && !IsWord(local) && !IsDelimiter(local[0])
    ensures MaskText(AddressIn(left, local, rest), alnum) != MaskText(AddressIn(left, local[..1], rest), alnum)
  {
    var a, p := LastWord(left);
    var r, b := FirstOf(rest);
    var l, tail := FirstWord(local);
    var (d, after) := (local[|l|], tail + ['@'] + rest);
    CutPieces(a, p, l, d, tail, rest);
    assert l[..1] == local[..1];
    AddressPieces(a, p, l[..1], r, b);
    FirstStays([d] + after, alnum);
    WordsCompare(a, p + l, [d] + after, p + l[..1] + (['@'] + r), b, alnum);
    OwnerInPieces(p, l, d, MaskText([d] + after, alnum), r, MaskText(b, alnum), alnum);
  }

  // ----- main results ------------------------------------------------------

  /** An address `local@...` at any place in a text: of its owner nothing past the
      first character has a bearing on the masked text, if and only if there is nothing
      more, or the owner holds no delimiter, its word has its first letter or digit at
      the owner's first character or before, with no `@` between that and the owner,
      and there is a letter or digit between the `@` and the next delimiter. */
  lemma OwnerIsMasked(left: string, local: string, rest: string, alnum: CharClass)
    requires IsAlnum(alnum) && local != [] && '@' !in local
    ensures MaskText(AddressIn(left, local, rest), alnum) == MaskText(AddressIn(left, local[..1], rest), alnum)
      <==> |local| == 1 || (IsWord(local) && Leads(AfterDelimiters(left), local, alnum)
                            && !NoneOf(TakeUntil(rest, IsDelimiter), alnum))
  {
    if |local| == 1 {
      assert local[..1] == local;
    } else if IsDelimiter(local[0]) {
      CutAtStart(left, local, rest, alnum);
    } else if IsWord(local) {
      WholeOwner(left, local, rest, alnum);
    } else {
      CutOwner(left, local, rest, alnum);
    }
  }

  /** An address that starts its word, as addresses do. */
  lemma OwnerOnItsOwn(left: string, local: string, rest: string, alnum: CharClass)
    requires IsAlnum(alnum) && local != [] && '@' !in local && EndsAtDelimiter(left)
    ensures MaskText(AddressIn(left, local, rest), alnum) == MaskText(AddressIn(left, local[..1], rest), alnum)
      <==> |local| == 1 || (IsWord(local) && alnum(local[0]) && !NoneOf(TakeUntil(rest, IsDelimiter), alnum))
  {
    OwnerIsMasked(left, local, rest, alnum);
  }

  /** What becomes of one that is masked: its first character, the stars, and all that
      stood around it. */
  lemma OwnerBecomesStars(left: string, local: string, rest: string, alnum: CharClass)
    requires IsAlnum(alnum) && local != [] && '@' !in local && EndsAtDelimiter(left)
    requires IsWord(local) && alnum(local[0]) && !NoneOf(TakeUntil(rest, IsDelimiter), alnum)
    ensures var r := TakeUntil(rest, IsDelimiter);
      MaskText(AddressIn(left, local, rest), alnum)
      == MaskText(left, alnum) + (local[..1] + ("***@" + r) + MaskText(rest[|r|..], alnum))
  {
    var r, b := FirstOf(rest);
    AddressPieces(left, [], local, r, b);
    MaskedInText(left, [] + local + (['@'] + r), b, alnum);
    OwnWordStarred(local, r, alnum);
    assert left + [] == left && b == rest[|r|..];
  }

  lemma OwnWordStarred(local: string, r: string, alnum: CharClass)
    requires !alnum('@') && local != [] && '@' !in local && alnum(local[0]) && !NoneOf(r, alnum)
    ensures MaskWord([] + local + (['@'] + r), alnum) == local[..1] + ("***@" + r)
  {
    assert DropFront(local[..1], alnum) == local[..1];
    assert [] + local[..1] == local[..1] && local[..1][..1] == local[..1];
    LedStarred([], local, r, alnum);
  }

  /** An apostrophe is a delimiter: what stands before it in an owner's name shows. */
  lemma ApostropheShows(left: string, word: string, at: nat, alnum: CharClass)
    requires !alnum('@') && '@' !in left && Edged(word, alnum) && AtIs(word, at) && IsWord(word)
    ensures MaskText(left + ['\''] + word, alnum) == left + (['\''] + Starred(word, at))
  {
    MaskingDistributes(left, '\'', word, alnum);
    MaskingSparesPlainText(left, alnum);
    MaskedAlone(word, at, alnum);
  }

  /** An owner without a letter or digit shows whole. */
  lemma NoLetterShows(local: string, domain: string, alnum: CharClass)
    requires !alnum('@') && NoneOf(local, alnum) && Edged(domain, alnum) && '@' !in domain
    requires IsWord(local) && IsWord(domain)
    ensures MaskText(local + ['@'] + domain, alnum) == local + ['@'] + domain
  {
    var word := local + ['@'] + domain;
    assert word == (local + ['@']) + domain + [];
    BareOf(local + ['@'], domain, [], alnum);
    MapOneWord(word, Masker(alnum));
  }
}
