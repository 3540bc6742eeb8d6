/** The sets of characters that classes stand for, said outright. */
module PatternClasses {
  import opened Patterns

  /** The text of an element between brackets. */
  function ItemText(item: ClassItem): (r: seq<int>)
    ensures r != []
  {
    match item
    case Escape(cl) => ['%' as int, cl]
    case Range(lo, hi) => [lo, '-' as int, hi]
    case Char(c) => [c]
  }

  function ItemsText(items: seq<ClassItem>): seq<int> {
    if items == [] then [] else ItemText(items[0]) + ItemsText(items[1..])
  }

  /** The element can be told from what follows: no character or start of a range is an escape, and no single
      character is followed by a dash, unless the dash is the last element. */
  predicate Readable(items: seq<ClassItem>) {
    items != [] ==>
      && Readable(items[1..])
      && match items[0]
         case Escape(_) => true
         case Range(lo, _) => lo != '%' as int
         case Char(c) =>
           c != '%' as int && (|items| > 1 ==> ItemText(items[1])[0] != '-' as int || items[1..] == [Char('-' as int)])
  }

  lemma FirstItem(pat: seq<int>, p: int, ec: int, item: ClassItem)
    requires 0 <= p && p + |ItemText(item)| <= ec <= |pat| && forall k :: 0 <= k < |ItemText(item)| ==> pat[p + k] == ItemText(item)[k]
    requires !item.Escape? ==> ItemText(item)[0] != '%' as int
    requires item.Char? ==> p + 2 >= ec || pat[p + 1] != '-' as int
    ensures Items(pat, p, ec) == [item] + Items(pat, p + |ItemText(item)|, ec)
  {
    var t := ItemText(item);
    assert pat[p + 0] == t[0];
    if |t| > 1 { assert pat[p + 1] == t[1]; }
    if |t| > 2 { assert pat[p + 2] == t[2]; }
  }

  lemma TextParts(pat: seq<int>, p: int, t: seq<int>, u: seq<int>)
    requires 0 <= p && p + |t| + |u| <= |pat| && pat[p..p + |t| + |u|] == t + u
    ensures pat[p + |t|..p + |t| + |u|] == u
    ensures forall k :: 0 <= k < |t| ==> pat[p + k] == t[k]
    ensures forall k :: 0 <= k < |u| ==> pat[p + |t| + k] == u[k]
  {
    var whole := pat[p..p + |t| + |u|];
    assert forall k :: 0 <= k < |whole| ==> pat[p + k] == whole[k];
  }

  /** The elements of a class are read back from their text. */
  lemma {:induction false} ItemsBack(pat: seq<int>, p: int, items: seq<ClassItem>)
    requires 0 <= p && p + |ItemsText(items)| <= |pat| && Readable(items)
    requires pat[p..p + |ItemsText(items)|] == ItemsText(items)
    ensures Items(pat, p, p + |ItemsText(items)|) == items
    decreases |items|
  {
    hide Items, ItemText;
    if items == [] {
      NoItems(pat, p);
    } else {
      var t, u := ItemText(items[0]), ItemsText(items[1..]);
      TextParts(pat, p, t, u);
      ItemsBack(pat, p + |t|, items[1..]);
      NextStarts(pat, p, items);
      FirstItem(pat, p, p + |t| + |u|, items[0]);
      assert items == [items[0]] + items[1..];
    }
  }

  lemma NoItems(pat: seq<int>, p: int)
    ensures Items(pat, p, p) == []
  {
  }

  lemma OneText(items: seq<ClassItem>)
    requires |items| == 1 && items[0].Char?
    ensures |ItemsText(items)| == 1
  {
    assert ItemsText(items[1..]) == [];
  }

  lemma NextStarts(pat: seq<int>, p: int, items: seq<ClassItem>)
    requires items != [] && Readable(items) && 0 <= p && p + |ItemsText(items)| <= |pat|
    requires var t, u := ItemText(items[0]), ItemsText(items[1..]); p + |t| + |u| <= |pat| && forall k :: 0 <= k < |u| ==> pat[p + |t| + k] == u[k]
    ensures !items[0].Escape? ==> ItemText(items[0])[0] != '%' as int
    ensures items[0].Char? ==> p + 2 >= p + |ItemsText(items)| || pat[p + 1] != '-' as int
  {
    if items[0].Char? && |items| > 1 {
      var u, rest := ItemsText(items[1..]), items[1..];
      assert rest != [] && rest[0] == items[1];
      assert u == ItemText(rest[0]) + ItemsText(rest[1..]);
      assert u[0] == ItemText(items[1])[0];
      var t := ItemText(items[0]);
      assert |u| > 0 && |t| == 1;
      assert pat[p + |t| + 0] == u[0];
      if rest == [Char('-' as int)] { OneText(rest); }
    }
  }

  /** A character belongs to an element. */
  ghost predicate Belongs(x: Subject, item: ClassItem, c: int) {
    match item
    case Escape(cl) => LetterClass(x, cl, c)
    case Range(lo, hi) => lo <= c && c <= hi
    case Char(d) => c == d
  }

  /** %a, %c, %d, %l, %p, %s, %u, %w and %x are classes of the C library, %z is the zero; upper-case letters
      stand for what is not in the class, and any other character for itself. */
  ghost predicate LetterClass(x: Subject, cl: int, c: int) {
    if cl == 'z' as int then c == 0
    else if cl == 'Z' as int then c != 0
    else if cl in {'a' as int, 'c' as int, 'd' as int, 'l' as int, 'p' as int, 's' as int, 'u' as int, 'w' as int, 'x' as int} then x.cls(c, cl)
    else if cl in {'A' as int, 'C' as int, 'D' as int, 'L' as int, 'P' as int, 'S' as int, 'U' as int, 'W' as int, 'X' as int} then !x.cls(c, cl + ('a' as int - 'A' as int))
    else c == cl
  }

  lemma LetterIs(x: Subject, cl: int, c: int)
    ensures MatchClass(x, c, cl) <==> LetterClass(x, cl, c)
  {
  }

  /** What a single class at `p' contains: any character, an escaped one, or itself. */
  lemma ClassMeans(x: Subject, p: int, c: int)
    requires 0 <= p < |x.pat|
    ensures x.pat[p] == '.' as int ==> InClass(x, c, p, p + 1)
    ensures x.pat[p] == '%' as int && p + 1 < |x.pat| ==> (InClass(x, c, p, p + 2) <==> LetterClass(x, x.pat[p + 1], c))
    ensures x.pat[p] != '.' as int && x.pat[p] != '%' as int && x.pat[p] != '[' as int ==> (InClass(x, c, p, p + 1) <==> c == x.pat[p])
  {
    hide LetterClass, MatchClass;
    if p + 1 < |x.pat| { LetterIs(x, x.pat[p + 1], c); }
  }

  lemma ItemIs(x: Subject, item: ClassItem, c: int)
    ensures HasChar(x, item, c) <==> Belongs(x, item, c)
  {
    hide LetterClass, MatchClass;
    if item.Escape? { LetterIs(x, item.cl, c); }
  }

  /** A set in brackets contains the characters of its elements, or after a caret the others. */
  lemma SetMeans(x: Subject, p: int, negated: bool, items: seq<ClassItem>, c: int)
    requires 0 <= p < |x.pat| && x.pat[p] == '[' as int && Readable(items) && SetAt(x.pat, p, negated, items)
    ensures var ep := p + (if negated then 3 else 2) + |ItemsText(items)|;
      InClass(x, c, p, ep) <==> ((exists i :: 0 <= i < |items| && Belongs(x, items[i], c)) <==> !negated)
  {
    hide Belongs, HasChar, Items, ItemsText, Readable;
    forall i | 0 <= i < |items| ensures HasChar(x, items[i], c) <==> Belongs(x, items[i], c) { ItemIs(x, items[i], c); }
    ItemsBack(x.pat, if negated then p + 2 else p + 1, items);
  }

  /** [items], or [^items]; without the caret the first element does not start with one. */
  predicate SetAt(pat: seq<int>, p: int, negated: bool, items: seq<ClassItem>) {
    var q := if negated then p + 2 else p + 1;
    && 0 <= p && q + |ItemsText(items)| < |pat| && pat[q..q + |ItemsText(items)|] == ItemsText(items)
    && pat[q + |ItemsText(items)|] == ']' as int && (negated <==> pat[p + 1] == '^' as int)
  }

  /** The character before a place, for %f: zero at the start. */
  lemma BeforeIs(src: seq<int>, s: int)
    requires 0 <= s <= |src|
    ensures (s > 0 ==> Previous(src, s) == src[s - 1]) && (s == 0 ==> Previous(src, s) == 0)
  {
  }
}
