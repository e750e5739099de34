/** The key of a list of strings: trimmed, without repetition, sorted and joined. The
    digest that follows is taken to be free of collisions, so the joined text itself
    serves as the key. */
module SignalKey {
  import opened Text

  // ---------------------------------------------------------------- the order

  /** The lexicographic order of sequences of code units, in which
      `Array.prototype.sort` puts strings. */
  predicate UnitsLess(a: seq<nat>, b: seq<nat>) {
    b != [] && (a == [] || a[0] < b[0] || (a[0] == b[0] && UnitsLess(a[1..], b[1..])))
  }

  /** Where the order by code units places a character: surrogate pairs come before the
      end of the basic plane. */
  function Rank(c: char): int {
    if c < '\U{E000}' then c as int
    else if c >= '\U{10000}' then c as int - 0x10000 + 0xD800
    else c as int + 0x200000
  }

  predicate Less(a: string, b: string) {
    b != [] && (a == [] || Rank(a[0]) < Rank(b[0]) || (a[0] == b[0] && Less(a[1..], b[1..])))
  }

  /** Different characters part within their code units, as their ranks say. */
  lemma RankIsUnitOrder(c: char, d: char, a: seq<nat>, b: seq<nat>)
    requires c != d
    ensures UnitsLess(Units(c) + a, Units(d) + b) <==> Rank(c) < Rank(d)
  {
    var u, v := Units(c) + a, Units(d) + b;
    if c >= '\U{10000}' && d >= '\U{10000}' {
      assert u[1..][0] == Units(c)[1] && v[1..][0] == Units(d)[1];
    }
  }

  lemma {:induction false} UnitsAfter(prefix: seq<nat>, a: seq<nat>, b: seq<nat>)
    ensures UnitsLess(prefix + a, prefix + b) <==> UnitsLess(a, b)
  {
    if prefix == [] {
      assert prefix + a == a && prefix + b == b;
    } else {
      assert (prefix + a)[1..] == prefix[1..] + a && (prefix + b)[1..] == prefix[1..] + b;
      UnitsAfter(prefix[1..], a, b);
    }
  }

  /** The order used here is the order by code units. */
  lemma {:induction false} LessIsUnitOrder(a: string, b: string)
    ensures Less(a, b) <==> UnitsLess(UnitsOf(a), UnitsOf(b))
  {
    if a != [] && b != [] {
      if a[0] == b[0] {
        UnitsAfter(Units(a[0]), UnitsOf(a[1..]), UnitsOf(b[1..]));
        LessIsUnitOrder(a[1..], b[1..]);
      } else {
        RankIsUnitOrder(a[0], b[0], UnitsOf(a[1..]), UnitsOf(b[1..]));
      }
    }
  }

  lemma {:induction false} LessTotal(a: string, b: string)
    ensures a == b || Less(a, b) || Less(b, a)
  {
    if a != [] && b != [] && a[0] == b[0] {
      LessTotal(a[1..], b[1..]);
      assert a == [a[0]] + a[1..] && b == [b[0]] + b[1..];
    }
  }

  lemma {:induction false} LessAsym(a: string, b: string)
    requires Less(a, b)
    ensures !Less(b, a) && a != b
  {
    if a != [] && a[0] == b[0] {
      LessAsym(a[1..], b[1..]);
    }
  }

  lemma {:induction false} LessTrans(a: string, b: string, c: string)
    requires Less(a, b) && Less(b, c)
    ensures Less(a, c)
  {
    if a != [] && a[0] == b[0] && b[0] == c[0] {
      LessTrans(a[1..], b[1..], c[1..]);
    }
  }

  ghost predicate Increasing(s: seq<string>) {
    forall i, j :: 0 <= i < j < |s| ==> Less(s[i], s[j])
  }

  function Insert(x: string, sorted: seq<string>): seq<string> {
    if sorted == [] then [x]
    else if x == sorted[0] then sorted
    else if Less(x, sorted[0]) then [x] + sorted
    else [sorted[0]] + Insert(x, sorted[1..])
  }

  lemma {:induction false} InsertSorted(x: string, sorted: seq<string>)
    requires Increasing(sorted)
    ensures Increasing(Insert(x, sorted))
    ensures forall s :: s in Insert(x, sorted) <==> s == x || s in sorted
  {
    if sorted != [] && x != sorted[0] {
      LessTotal(x, sorted[0]);
      if Less(x, sorted[0]) {
        forall j | 0 <= j < |sorted| ensures Less(x, sorted[j]) {
          if j > 0 {
            LessTrans(x, sorted[0], sorted[j]);
          }
        }
      } else {
        InsertSorted(x, sorted[1..]);
        var rest := Insert(x, sorted[1..]);
        forall j | 0 <= j < |rest| ensures Less(sorted[0], rest[j]) {
          assert rest[j] in rest;
        }
      }
    }
  }

  /** `[...new Set(items.map(trim).filter(Boolean))].sort()` */
  function Canonical(items: seq<string>): seq<string> {
    if items == [] then []
    else if Trim(items[0]) == "" then Canonical(items[1..])
    else Insert(Trim(items[0]), Canonical(items[1..]))
  }

  /** The set a list stands for: its trimmed, non-blank strings. */
  function TrimSet(items: seq<string>): set<string> {
    set s | s in items && Trim(s) != "" :: Trim(s)
  }

  lemma {:induction false} CanonicalSorted(items: seq<string>)
    ensures Increasing(Canonical(items))
    ensures forall s :: s in Canonical(items) <==> s in TrimSet(items)
  {
    if items != [] {
      CanonicalSorted(items[1..]);
      assert items == [items[0]] + items[1..];
      if Trim(items[0]) != "" {
        InsertSorted(Trim(items[0]), Canonical(items[1..]));
        assert TrimSet(items) == {Trim(items[0])} + TrimSet(items[1..]);
      } else {
        assert TrimSet(items) == TrimSet(items[1..]);
      }
    }
  }

  lemma {:induction false} IncreasingUnique(a: seq<string>, b: seq<string>)
    requires Increasing(a) && Increasing(b)
    requires forall s :: s in a <==> s in b
    ensures a == b
  {
    assert b != [] ==> b[0] in b;
    if a != [] {
      assert a[0] in a;
      assert b != [];
      assert b[0] in b;
      HeadsAgree(a, b);
      forall s | s in a[1..] ensures s in b[1..] {
        TailMember(a, b, s);
      }
      forall s | s in b[1..] ensures s in a[1..] {
        TailMember(b, a, s);
      }
      IncreasingUnique(a[1..], b[1..]);
      assert a == [a[0]] + a[1..] && b == [b[0]] + b[1..];
    }
  }

  lemma HeadsAgree(a: seq<string>, b: seq<string>)
    requires Increasing(a) && Increasing(b) && a != [] && b != []
    requires a[0] in b && b[0] in a
    ensures a[0] == b[0]
  {
    var i :| 0 <= i < |b| && b[i] == a[0];
    var j :| 0 <= j < |a| && a[j] == b[0];
    if i > 0 && j > 0 {
      assert Less(b[0], b[i]) && Less(a[0], a[j]);
      LessAsym(a[0], b[0]);
    }
  }

  lemma TailMember(a: seq<string>, b: seq<string>, s: string)
    requires Increasing(a) && a != [] && b != [] && a[0] == b[0]
    requires s in a[1..] && s in b
    ensures s in b[1..]
  {
    var i :| 1 <= i < |a| && a[i] == s;
    LessAsym(a[0], a[i]);
    var j :| 0 <= j < |b| && b[j] == s;
    assert b[1..][j - 1] == s;
  }

  function Join(lines: seq<string>): string {
    if lines == [] then ""
    else if |lines| == 1 then lines[0]
    else lines[0] + "\n" + Join(lines[1..])
  }

  function HashStrings(items: seq<string>): string {
    Join(Canonical(items))
  }

  predicate OneLine(s: string) {
    '\n' !in s
  }

  /** The lines of a text. */
  function LinesOf(text: string): (lines: seq<string>)
    ensures lines != []
  {
    if text == [] then [""]
    else
      var rest := LinesOf(text[1..]);
      if text[0] == '\n' then [""] + rest else [[text[0]] + rest[0]] + rest[1..]
  }

  /** The lines of all items of a list, one item after the other. */
  function Spelled(list: seq<string>): seq<string> {
    if list == [] then [] else LinesOf(list[0]) + Spelled(list[1..])
  }

  lemma {:induction false} LinesOfJoined(x: string, text: string)
    ensures LinesOf(x + "\n" + text) == LinesOf(x) + LinesOf(text)
  {
    var whole := x + "\n" + text;
    if x == [] {
      assert whole[1..] == text;
    } else {
      assert whole[1..] == x[1..] + "\n" + text;
      LinesOfJoined(x[1..], text);
    }
  }

  lemma {:induction false} LinesRejoin(text: string)
    ensures Join(LinesOf(text)) == text
  {
    if text != [] {
      var rest := LinesOf(text[1..]);
      LinesRejoin(text[1..]);
      assert text == [text[0]] + text[1..];
      if text[0] == '\n' {
        assert ([""] + rest)[1..] == rest;
      } else {
        assert ([[text[0]] + rest[0]] + rest[1..])[1..] == rest[1..];
      }
    }
  }

  lemma {:induction false} LinesOfJoin(list: seq<string>)
    requires list != []
    ensures LinesOf(Join(list)) == Spelled(list)
  {
    if |list| == 1 {
      assert Spelled(list[1..]) == [];
    } else {
      LinesOfJoin(list[1..]);
      LinesOfJoined(list[0], Join(list[1..]));
    }
  }

  /** Two joined texts are equal exactly when the lists spell the same lines. */
  lemma JoinExactly(a: seq<string>, b: seq<string>)
    requires "" !in a && "" !in b
    ensures Join(a) == Join(b) <==> Spelled(a) == Spelled(b)
  {
    if a != [] {
      assert a[0] in a;
      LinesOfJoin(a);
      LinesRejoin(Join(a));
    }
    if b != [] {
      assert b[0] in b;
      LinesOfJoin(b);
      LinesRejoin(Join(b));
    }
  }

  lemma {:induction false} OneLineIsItsLine(x: string)
    requires OneLine(x)
    ensures LinesOf(x) == [x]
  {
    if x != [] {
      assert x[0] in x && OneLine(x[1..]);
      OneLineIsItsLine(x[1..]);
      assert x == [x[0]] + x[1..];
    }
  }

  /** A list of one-line items spells itself. */
  lemma {:induction false} OneLinesSpelled(list: seq<string>)
    requires forall s :: s in list ==> OneLine(s)
    ensures Spelled(list) == list
  {
    if list != [] {
      assert list[0] in list;
      OneLineIsItsLine(list[0]);
      OneLinesSpelled(list[1..]);
      assert list == [list[0]] + list[1..];
    }
  }

  /** The key depends only on the set of trimmed strings. */
  lemma KeyOfSet(a: seq<string>, b: seq<string>)
    requires TrimSet(a) == TrimSet(b)
    ensures HashStrings(a) == HashStrings(b)
  {
    CanonicalSorted(a);
    CanonicalSorted(b);
    IncreasingUnique(Canonical(a), Canonical(b));
  }

  lemma NoBlankItem(items: seq<string>)
    ensures "" !in Canonical(items)
  {
    CanonicalSorted(items);
  }

  /** Two keys are equal exactly when the two canonical lists spell the same lines, be
      they cut into items in the same way or not. */
  lemma KeyExactly(a: seq<string>, b: seq<string>)
    ensures HashStrings(a) == HashStrings(b) <==> Spelled(Canonical(a)) == Spelled(Canonical(b))
  {
    NoBlankItem(a);
    NoBlankItem(b);
    JoinExactly(Canonical(a), Canonical(b));
  }

  lemma CanonicalOneLines(items: seq<string>)
    requires forall s :: s in TrimSet(items) ==> OneLine(s)
    ensures Spelled(Canonical(items)) == Canonical(items)
  {
    CanonicalSorted(items);
    OneLinesSpelled(Canonical(items));
  }

  /** For strings of one line, then, the key tells different sets apart. */
  lemma KeyIsExact(a: seq<string>, b: seq<string>)
    requires forall s :: s in TrimSet(a) || s in TrimSet(b) ==> OneLine(s)
    ensures HashStrings(a) == HashStrings(b) <==> TrimSet(a) == TrimSet(b)
  {
    KeyExactly(a, b);
    CanonicalOneLines(a);
    CanonicalOneLines(b);
    if TrimSet(a) == TrimSet(b) {
      KeyOfSet(a, b);
    } else if HashStrings(a) == HashStrings(b) {
      CanonicalSorted(a);
      CanonicalSorted(b);
      assert forall s :: s in TrimSet(a) <==> s in TrimSet(b);
    }
  }

  /** A line break inside a string can make two different sets share a key. */
  lemma KeyCollides()
    ensures HashStrings(["a\nb"]) == HashStrings(["a", "b"])
    ensures TrimSet(["a\nb"]) != TrimSet(["a", "b"])
  {
    assert Trim("a\nb") == "a\nb" && Trim("a") == "a" && Trim("b") == "b";
    assert Canonical(["a\nb"]) == ["a\nb"] by {
      assert ["a\nb"][1..] == [];
    }
    assert Canonical(["a", "b"]) == ["a", "b"] by {
      assert ["a", "b"][1..] == ["b"];
      assert ["b"][1..] == [];
      assert Canonical(["b"]) == ["b"];
      assert Less("a", "b");
    }
    assert Join(["a", "b"]) == "a\nb" by {
      assert ["a", "b"][1..] == ["b"];
    }
    assert |"a"| == 1;
    assert "a" in TrimSet(["a", "b"]);
    assert "a" !in TrimSet(["a\nb"]);
  }

  /** Beyond the basic plane the sort is not by code point: these two lists share a key
      because U+10000 comes before U+FFFD. */
  lemma KeyCollidesBeyondPlane()
    ensures HashStrings(["\U{FFFD}", "\U{10000}"]) == HashStrings(["\U{10000}\n\U{FFFD}"])
  {
    var x, y, xy := "\U{10000}", "\U{FFFD}", "\U{10000}\n\U{FFFD}";
    assert Trim(x) == x && Trim(y) == y && Trim(xy) == xy;
    assert Canonical([xy]) == [xy] by {
      assert [xy][1..] == [];
    }
    assert Canonical([y, x]) == [x, y] by {
      assert [y, x][1..] == [x];
      assert [x][1..] == [];
      assert Canonical([x]) == [x];
      assert !Less(y, x);
      assert Insert(y, []) == [y];
    }
    assert Join([x, y]) == xy by {
      assert [x, y][1..] == [y];
    }
  }
}
