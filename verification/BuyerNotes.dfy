/** Calming and summarising buyer notes. */
module BuyerNotes {
  import opened Basics

  /** A JavaScript string: UTF-16 code units. */
  type Text = seq<nat>

  function Ascii(s: string): Text {
    seq(|s|, i requires 0 <= i < |s| => s[i] as int)
  }

  const SPACE: nat := 32
  const DOT: nat := 46

  /** What `\s` matches and `trim` removes. */
  predicate IsSpace(u: nat) {
    9 <= u <= 13 || u == 32 || u == 0xA0 || u == 0x1680 || 0x2000 <= u <= 0x200A
    || u == 0x2028 || u == 0x2029 || u == 0x202F || u == 0x205F || u == 0x3000 || u == 0xFEFF
  }

  /** The same, unit by unit: the white space and line terminators of ECMAScript. */
  lemma SpaceMeans(u: nat)
    ensures IsSpace(u) <==>
            u in {9, 10, 11, 12, 13, 32, 160, 5760, 8192, 8193, 8194, 8195, 8196, 8197, 8198, 8199, 8200, 8201, 8202,
                  8232, 8233, 8239, 8287, 12288, 65279}
  {
  }

  function DropSpaces(t: Text): (r: Text)
    ensures |r| <= |t|
  {
    if t != [] && IsSpace(t[0]) then DropSpaces(t[1..]) else t
  }

  /** `replace(/\s+/g, " ")` */
  function Collapse(t: Text): Text
    decreases |t|
  {
    if t == [] then []
    else if IsSpace(t[0]) then [SPACE] + Collapse(DropSpaces(t[1..]))
    else [t[0]] + Collapse(t[1..])
  }

  function DropTrailingSpaces(t: Text): Text {
    if t != [] && IsSpace(t[|t| - 1]) then DropTrailingSpaces(t[..|t| - 1]) else t
  }

  function Trim(t: Text): Text {
    DropTrailingSpaces(DropSpaces(t))
  }

  /** `toLowerCase` as far as ASCII patterns can tell: the capital letters, the two other characters
      with ASCII in their lower case (U+0130, U+212A), and everything else left as it is. */
  function LowerUnit(u: nat): Text {
    if 65 <= u <= 90 then [u + 32]
    else if u == 0x130 then [105, 0x307]
    else if u == 0x212A then [107]
    else [u]
  }

  function Lower(t: Text): Text {
    if t == [] then [] else Lower(t[..|t| - 1]) + LowerUnit(t[|t| - 1])
  }

  predicate OccursAt(t: Text, p: Text, i: int) {
    0 <= i && i + |p| <= |t| && t[i..i + |p|] == p
  }

  predicate Includes(t: Text, p: Text) {
    exists i :: 0 <= i <= |t| && OccursAt(t, p, i)
  }

  predicate Says(t: Text, p: string) {
    Includes(Lower(t), Ascii(p))
  }

  predicate Unsure(t: Text) {
    Says(t, "unknown") || Says(t, "unclear")
  }

  datatype Rule = PriceRule | VatRule | ShippingRule | WarrantyRule | ImportRule | SpecRule | NoRule

  /** The first rule that fires on a tidied note. */
  function RuleOf(t: Text): Rule {
    if Says(t, "no sar price") || Says(t, "price available") || Says(t, "price unknown") then PriceRule
    else if Says(t, "vat") && Unsure(t) then VatRule
    else if Says(t, "shipping") && Unsure(t) then ShippingRule
    else if Says(t, "warranty") && Unsure(t) then WarrantyRule
    else if Says(t, "imported listing") then ImportRule
    else if Says(t, "missing") && Says(t, "spec") then SpecRule
    else NoRule
  }

  /** The canned messages, word by word. */
  function Words(r: Rule): seq<string>
    requires r != NoRule
  {
    match r
    case PriceRule => ["Price", "not", "listed", "yet."]
    case VatRule => ["VAT", "may", "need", "a", "store", "check."]
    case ShippingRule => ["Delivery", "details", "may", "need", "a", "store", "check."]
    case WarrantyRule => ["Warranty", "details", "may", "need", "a", "store", "check."]
    case ImportRule => ["This", "option", "may", "ship", "from", "outside", "Saudi", "stock."]
    case SpecRule => ["Some", "specs", "need", "confirmation."]
  }

  function Join(ws: seq<string>): string {
    if ws == [] then "" else if |ws| == 1 then ws[0] else ws[0] + " " + Join(ws[1..])
  }

  function Message(r: Rule): string
    requires r != NoRule
  {
    Join(Words(r))
  }

  function CutShort(text: Text): Text {
    if |text| > 150 then Trim(text[..147]) + [DOT, DOT, DOT] else text
  }

  /** `calmBuyerNote`; None is null or undefined. */
  function CalmBuyerNote(note: Option<Text>): Option<Text> {
    var text := Trim(Collapse(if note.Some? then note.value else []));
    if text == [] then None
    else if RuleOf(text) != NoRule then Some(Ascii(Message(RuleOf(text))))
    else Some(CutShort(text))
  }

  // ---------- tidy texts ----------

  /** Non-empty, single interior blanks only. */
  ghost predicate Tidy(t: Text) {
    && t != [] && !IsSpace(t[0]) && !IsSpace(t[|t| - 1])
    && Blanks(t)
  }

  /** The only white space is a blank, and no two are adjacent. */
  ghost predicate Blanks(t: Text) {
    && (forall i :: 0 <= i < |t| && IsSpace(t[i]) ==> t[i] == SPACE)
    && (forall i :: 0 <= i < |t| - 1 && IsSpace(t[i]) ==> !IsSpace(t[i + 1]))
  }

  lemma {:induction false} DropSpacesHead(t: Text)
    ensures DropSpaces(t) != [] ==> !IsSpace(DropSpaces(t)[0])
  {
    if t != [] { DropSpacesHead(t[1..]); }
  }

  lemma {:induction false} CollapseBlanks(t: Text)
    ensures Blanks(Collapse(t))
    ensures t != [] && !IsSpace(t[0]) ==> Collapse(t) != [] && !IsSpace(Collapse(t)[0])
    decreases |t|
  {
    if t != [] {
      if IsSpace(t[0]) {
        var rest := DropSpaces(t[1..]);
        DropSpacesHead(t[1..]);
        CollapseBlanks(rest);
      } else {
        CollapseBlanks(t[1..]);
      }
    }
  }

  lemma {:induction false} TrimBlanks(t: Text)
    requires Blanks(t)
    ensures Trim(t) == [] || Tidy(Trim(t))
  {
    if t != [] && IsSpace(t[0]) {
      assert Blanks(t[1..]);
      TrimBlanks(t[1..]);
    } else {
      DropTrailingBlanks(t);
    }
  }

  lemma {:induction false} DropTrailingBlanks(t: Text)
    requires Blanks(t) && (t != [] ==> !IsSpace(t[0]))
    ensures DropTrailingSpaces(t) == [] || Tidy(DropTrailingSpaces(t))
    ensures DropTrailingSpaces(t) <= t && |DropTrailingSpaces(t)| >= |t| - 1
  {
    if t != [] && IsSpace(t[|t| - 1]) {
      var front := t[..|t| - 1];
      assert !IsSpace(front[|front| - 1]);
      assert DropTrailingSpaces(t) == front;
    }
  }

  lemma {:induction false} CollapseTidy(t: Text)
    requires Blanks(t)
    ensures Collapse(t) == t
    decreases |t|
  {
    if t != [] {
      var rest := t[1..];
      assert Blanks(rest);
      if IsSpace(t[0]) {
        assert rest != [] ==> !IsSpace(rest[0]);
        assert DropSpaces(rest) == rest;
      }
      CollapseTidy(rest);
    }
  }

  lemma TidyIsNormal(t: Text)
    requires Tidy(t)
    ensures Trim(Collapse(t)) == t
  {
    CollapseTidy(t);
  }

  // ---------- what tidying keeps ----------

  /** The words of a text: its runs of units that are not white space. */
  function WordsOf(t: Text): seq<Text> {
    if t == [] then []
    else
      var n, ws := |t| - 1, WordsOf(t[..|t| - 1]);
      if IsSpace(t[n]) then ws
      else if ws == [] || IsSpace(t[n - 1]) then ws + [[t[n]]]
      else ws[..|ws| - 1] + [ws[|ws| - 1] + [t[n]]]
  }

  function Spaced(ws: seq<Text>): Text {
    if ws == [] then []
    else if |ws| == 1 then ws[0]
    else Spaced(ws[..|ws| - 1]) + [SPACE] + ws[|ws| - 1]
  }

  ghost predicate SolidWords(ws: seq<Text>) {
    forall i :: 0 <= i < |ws| ==> ws[i] != [] && forall j :: 0 <= j < |ws[i]| ==> !IsSpace(ws[i][j])
  }

  lemma {:induction false} WordsAreSolid(t: Text)
    ensures SolidWords(WordsOf(t))
    ensures t != [] && !IsSpace(t[|t| - 1]) ==> WordsOf(t) != []
  {
    if t != [] { WordsAreSolid(t[..|t| - 1]); }
  }

  lemma {:induction false} DropSpacesAppend(a: Text, b: Text)
    ensures DropSpaces(a + b) == if DropSpaces(a) == [] then DropSpaces(b) else DropSpaces(a) + b
    ensures DropSpaces(a) != [] ==> DropSpaces(a)[|DropSpaces(a)| - 1] == a[|a| - 1]
    ensures a != [] && DropSpaces(a) == [] ==> IsSpace(a[|a| - 1])
  {
    if a == [] {
      assert a + b == b;
    } else {
      assert (a + b)[1..] == a[1..] + b;
      DropSpacesAppend(a[1..], b);
    }
  }

  /** What one more unit adds to a collapsed text. */
  function Added(t: Text, u: nat): Text {
    if !IsSpace(u) then [u] else if t != [] && IsSpace(t[|t| - 1]) then [] else [SPACE]
  }

  /** Collapsing works unit by unit from the right as well. */
  ghost predicate SnocHolds(t: Text, u: nat) {
    Collapse(t + [u]) == Collapse(t) + Added(t, u)
  }

  lemma SnocAfterSolid(t: Text, u: nat)
    requires t != [] && !IsSpace(t[0]) && SnocHolds(t[1..], u)
    ensures SnocHolds(t, u)
  {
    assert (t + [u])[1..] == t[1..] + [u];
    assert Added(t, u) == Added(t[1..], u);
    assert Collapse(t + [u]) == [t[0]] + (Collapse(t[1..]) + Added(t, u));
  }

  lemma SnocAfterBlanks(t: Text, u: nat)
    requires t != [] && IsSpace(t[0]) && DropSpaces(t[1..]) == []
    ensures SnocHolds(t, u)
  {
    assert (t + [u])[1..] == t[1..] + [u];
    DropSpacesAppend(t[1..], [u]);
    assert IsSpace(t[|t| - 1]);
    assert [u][1..] == [];
    assert Collapse(t) == [SPACE];
    assert Collapse(t + [u]) == [SPACE] + Collapse(DropSpaces([u]));
    assert DropSpaces([u]) == if IsSpace(u) then [] else [u];
  }

  lemma SnocAfterBlank(t: Text, u: nat)
    requires t != [] && IsSpace(t[0]) && DropSpaces(t[1..]) != [] && SnocHolds(DropSpaces(t[1..]), u)
    ensures SnocHolds(t, u)
  {
    var rest := DropSpaces(t[1..]);
    assert (t + [u])[1..] == t[1..] + [u];
    DropSpacesAppend(t[1..], [u]);
    assert Added(t, u) == Added(rest, u);
    assert Collapse(t + [u]) == [SPACE] + (Collapse(rest) + Added(t, u));
  }

  lemma {:induction false} CollapseSnoc(t: Text, u: nat)
    ensures SnocHolds(t, u)
    decreases |t|
  {
    if t == [] {
      assert t + [u] == [u] && [u][1..] == [];
    } else if !IsSpace(t[0]) {
      CollapseSnoc(t[1..], u);
      SnocAfterSolid(t, u);
    } else if DropSpaces(t[1..]) == [] {
      SnocAfterBlanks(t, u);
    } else {
      CollapseSnoc(DropSpaces(t[1..]), u);
      SnocAfterBlank(t, u);
    }
  }

  lemma SpacedSnoc(ws: seq<Text>, w: Text)
    ensures Spaced(ws + [w]) == if ws == [] then w else Spaced(ws) + [SPACE] + w
  {
    assert (ws + [w])[..|ws|] == ws;
  }

  lemma SpacedGrows(front: seq<Text>, w: Text, u: nat)
    ensures Spaced(front + [w + [u]]) == Spaced(front + [w]) + [u]
  {
    SpacedSnoc(front, w + [u]);
    SpacedSnoc(front, w);
    assert Spaced(front) + [SPACE] + (w + [u]) == (Spaced(front) + [SPACE] + w) + [u];
  }

  /** A collapsed text without its leading blank: the words, single blanks between, and one after them
      if the text ends in white space. */
  ghost predicate HasWords(t: Text, ws: seq<Text>) {
    && (t == [] ==> ws == [])
    && DropSpaces(Collapse(t)) == Spaced(ws) + (if ws != [] && IsSpace(t[|t| - 1]) then [SPACE] else [])
    && (DropSpaces(Collapse(t)) == [] <==> ws == [])
  }

  lemma CollapsedSnoc(t: Text, u: nat)
    ensures DropSpaces(Collapse(t + [u]))
            == if DropSpaces(Collapse(t)) == [] then DropSpaces(Added(t, u)) else DropSpaces(Collapse(t)) + Added(t, u)
  {
    CollapseSnoc(t, u);
    DropSpacesAppend(Collapse(t), Added(t, u));
  }

  lemma WordsThenBlank(t: Text, ws: seq<Text>, u: nat)
    requires t != [] ==> HasWords(t, ws)
    requires IsSpace(u) && (t == [] ==> ws == [])
    ensures HasWords(t + [u], ws)
  {
    CollapsedSnoc(t, u);
    assert [SPACE][1..] == [];
  }

  lemma WordsThenNewWord(t: Text, ws: seq<Text>, u: nat)
    requires t == [] || HasWords(t, ws)
    requires !IsSpace(u) && (t == [] ==> ws == []) && (ws == [] || IsSpace(t[|t| - 1]))
    ensures HasWords(t + [u], ws + [[u]])
  {
    CollapsedSnoc(t, u);
    SpacedSnoc(ws, [u]);
  }

  lemma WordsThenMore(t: Text, front: seq<Text>, w: Text, u: nat)
    requires t != [] && HasWords(t, front + [w])
    requires !IsSpace(u) && !IsSpace(t[|t| - 1])
    ensures HasWords(t + [u], front + [w + [u]])
  {
    CollapsedSnoc(t, u);
    SpacedGrows(front, w, u);
  }

  lemma {:induction false} CollapsedWords(t: Text)
    ensures HasWords(t, WordsOf(t))
  {
    if t != [] {
      var n := |t| - 1;
      var front, u, ws := t[..n], t[n], WordsOf(t[..n]);
      CollapsedWords(front);
      WordsAreSolid(front);
      assert t == front + [u];
      if IsSpace(u) {
        WordsThenBlank(front, ws, u);
      } else if ws == [] || IsSpace(t[n - 1]) {
        WordsThenNewWord(front, ws, u);
      } else {
        assert ws == ws[..|ws| - 1] + [ws[|ws| - 1]];
        WordsThenMore(front, ws[..|ws| - 1], ws[|ws| - 1], u);
      }
    }
  }

  lemma SpacedIsSolidAtEnd(ws: seq<Text>)
    requires ws != [] && SolidWords(ws)
    ensures Spaced(ws) != [] && !IsSpace(Spaced(ws)[|Spaced(ws)| - 1])
  {
    SpacedSnoc(ws[..|ws| - 1], ws[|ws| - 1]);
    assert ws == ws[..|ws| - 1] + [ws[|ws| - 1]];
  }

  /** Tidying keeps exactly the words, with single blanks between them. */
  lemma TidyingKeepsWords(t: Text)
    ensures Trim(Collapse(t)) == Spaced(WordsOf(t))
  {
    var ws := WordsOf(t);
    CollapsedWords(t);
    WordsAreSolid(t);
    if ws != [] {
      SpacedIsSolidAtEnd(ws);
      var s := Spaced(ws);
      assert DropTrailingSpaces(s) == s;
      assert (s + [SPACE])[..|s|] == s;
    }
  }

  // ---------- patterns ----------

  lemma LowerSnoc(t: Text, u: nat)
    ensures Lower(t + [u]) == Lower(t) + LowerUnit(u)
  {
    assert (t + [u])[..|t|] == t;
  }

  ghost predicate LowerSplits(a: Text, b: Text) {
    Lower(a + b) == Lower(a) + Lower(b)
  }

  lemma LowerSplitsMore(a: Text, b: Text, u: nat)
    requires LowerSplits(a, b)
    ensures LowerSplits(a, b + [u])
  {
    var whole, part, last := Lower(a + (b + [u])), Lower(b + [u]), LowerUnit(u);
    assert whole == Lower(a + b) + last by {
      LowerSnoc(a + b, u);
      assert a + (b + [u]) == (a + b) + [u];
    }
    assert part == Lower(b) + last by { LowerSnoc(b, u); }
    Regroup(Lower(a), Lower(b), last);
  }

  lemma Regroup(x: Text, y: Text, z: Text)
    ensures x + (y + z) == (x + y) + z
  {
  }

  lemma {:induction false} LowerAppend(a: Text, b: Text)
    ensures LowerSplits(a, b)
  {
    if b == [] {
      assert a + b == a;
    } else {
      LowerAppend(a, b[..|b| - 1]);
      LowerSplitsMore(a, b[..|b| - 1], b[|b| - 1]);
      assert b == b[..|b| - 1] + [b[|b| - 1]];
    }
  }

  lemma ReachesIntoTail(t: Text, tail: Text, p: Text, i: nat)
    requires OccursAt(t + tail, p, i) && p != [] && i + |p| > |t|
    ensures p[|p| - 1] in tail
  {
    var k := i + |p| - 1;
    assert (t + tail)[i..i + |p|][|p| - 1] == (t + tail)[k] == tail[k - |t|];
  }

  /** A pattern without the appended units cannot reach into the appended tail. */
  lemma IncludesBeforeDots(t: Text, tail: Text, p: Text)
    requires Includes(t + tail, p) && p != []
    requires forall u :: u in tail ==> u !in p
    ensures Includes(t, p)
  {
    var i :| 0 <= i <= |t + tail| && OccursAt(t + tail, p, i);
    assert i + |p| <= |t| by {
      if i + |p| > |t| { ReachesIntoTail(t, tail, p, i); }
    }
    assert (t + tail)[i..i + |p|] == t[i..i + |p|];
    assert OccursAt(t, p, i);
  }

  lemma IncludesInLonger(t: Text, more: Text, p: Text)
    requires Includes(t, p)
    ensures Includes(t + more, p)
  {
    var i :| 0 <= i <= |t| && OccursAt(t, p, i);
    assert (t + more)[i..i + |p|] == t[i..i + |p|];
    assert OccursAt(t + more, p, i);
  }

  lemma NoDot(p: string)
    requires '.' !in p
    ensures DOT !in Ascii(p)
  {
    forall i | 0 <= i < |p| ensures Ascii(p)[i] != DOT {
      assert p[i] in p && '.' as int == DOT;
    }
  }

  /** Cutting a text and adding an ellipsis adds no pattern. */
  lemma CutSaysLess(t: Text, n: nat, p: string)
    requires n <= |t| && p != "" && '.' !in p
    ensures Says(t[..n] + [DOT, DOT, DOT], p) ==> Says(t, p)
  {
    var dots := [DOT, DOT, DOT];
    if Says(t[..n] + dots, p) {
      LowerAppend(t[..n], dots);
      LowerDots();
      NoDot(p);
      IncludesBeforeDots(Lower(t[..n]), dots, Ascii(p));
      LowerAppend(t[..n], t[n..]);
      assert t[..n] + t[n..] == t;
      IncludesInLonger(Lower(t[..n]), Lower(t[n..]), Ascii(p));
    }
  }

  lemma LowerDots()
    ensures Lower([DOT, DOT, DOT]) == [DOT, DOT, DOT]
  {
    assert [DOT, DOT, DOT][..2] == [DOT, DOT] && [DOT, DOT][..1] == [DOT] && [DOT][..0] == [];
    assert Lower([DOT]) == [DOT];
    assert Lower([DOT, DOT]) == [DOT, DOT];
  }

  lemma CutFiresNoRule(t: Text, n: nat)
    requires n <= |t| && RuleOf(t) == NoRule
    ensures RuleOf(t[..n] + [DOT, DOT, DOT]) == NoRule
  {
    CutSaysLess(t, n, "no sar price");
    CutSaysLess(t, n, "price available");
    CutSaysLess(t, n, "price unknown");
    CutSaysLess(t, n, "vat");
    CutSaysLess(t, n, "unknown");
    CutSaysLess(t, n, "unclear");
    CutSaysLess(t, n, "shipping");
    CutSaysLess(t, n, "warranty");
    CutSaysLess(t, n, "imported listing");
    CutSaysLess(t, n, "missing");
    CutSaysLess(t, n, "spec");
  }

  /** A pattern needs all its letters. */
  lemma SaysLetters(t: Text, p: string, c: char)
    requires Says(t, p) && c in p
    ensures c as int in Lower(t)
  {
    var i :| 0 <= i <= |Lower(t)| && OccursAt(Lower(t), Ascii(p), i);
    var j :| 0 <= j < |p| && p[j] == c;
    assert Lower(t)[i..i + |p|][j] == Lower(t)[i + j] == c as int;
  }

  /** On text without U+0130 lower-casing works unit by unit. */
  lemma {:induction false} LowerAscii(t: Text)
    requires forall i :: 0 <= i < |t| ==> t[i] != 0x130
    ensures |Lower(t)| == |t|
    ensures forall i :: 0 <= i < |t| ==> [Lower(t)[i]] == LowerUnit(t[i])
  {
    if t != [] {
      var front, u := t[..|t| - 1], t[|t| - 1];
      LowerAscii(front);
      LowerSnoc(front, u);
      assert t == front + [u];
      forall i | 0 <= i < |t| ensures [Lower(t)[i]] == LowerUnit(t[i]) {
        if i < |front| { assert Lower(t)[i] == Lower(front)[i] && t[i] == front[i]; }
      }
    }
  }

  /** A non-empty printable word with none of the letters in `bad`. */
  ghost predicate Avoids(w: string, bad: set<char>) {
    w != "" && forall i :: 0 <= i < |w| ==> '!' <= w[i] <= '~' && w[i] !in bad
  }

  ghost predicate Spelled(ws: seq<string>, bad: set<char>) {
    forall w :: w in ws ==> Avoids(w, bad)
  }

  /** "no" does not occur in the word, in any case. */
  ghost predicate WithoutNo(w: string) {
    forall i :: 0 <= i < |w| - 1 ==> !((w[i] == 'n' || w[i] == 'N') && (w[i + 1] == 'o' || w[i + 1] == 'O'))
  }

  lemma {:induction false} JoinSpelled(ws: seq<string>, bad: set<char>)
    requires ws != [] && Spelled(ws, bad)
    ensures var m := Join(ws);
            && m != "" && m[0] != ' ' && m[|m| - 1] != ' '
            && (forall i :: 0 <= i < |m| ==> m[i] == ' ' || ('!' <= m[i] <= '~' && m[i] !in bad))
            && (forall i :: 0 <= i < |m| - 1 && m[i] == ' ' ==> m[i + 1] != ' ')
  {
    assert Avoids(ws[0], bad);
    if |ws| > 1 {
      JoinSpelled(ws[1..], bad);
      JoinIndex(ws);
    }
  }

  lemma JoinIndex(ws: seq<string>)
    requires |ws| > 1
    ensures var m, rest, n := Join(ws), Join(ws[1..]), |ws[0]|;
            && |m| == n + 1 + |rest|
            && forall i :: 0 <= i < |m| ==> m[i] == if i < n then ws[0][i] else if i == n then ' ' else rest[i - n - 1]
  {
  }

  lemma {:induction false} JoinWithoutNo(ws: seq<string>)
    requires forall w :: w in ws ==> WithoutNo(w)
    ensures WithoutNo(Join(ws))
  {
    if ws != [] {
      assert WithoutNo(ws[0]);
      if |ws| > 1 {
        JoinWithoutNo(ws[1..]);
        JoinIndex(ws);
      }
    }
  }

  lemma SpelledIsTidy(ws: seq<string>, bad: set<char>)
    requires ws != [] && Spelled(ws, bad)
    ensures Tidy(Ascii(Join(ws)))
  {
    JoinSpelled(ws, bad);
    var m, t := Join(ws), Ascii(Join(ws));
    forall i | 0 <= i < |t| ensures IsSpace(t[i]) <==> m[i] == ' ' {}
  }

  /** A message without a letter says nothing that needs it. */
  lemma SpelledSays(ws: seq<string>, bad: set<char>, p: string, k: nat)
    requires ws != [] && Spelled(ws, bad) && k < |p| && 'a' <= p[k] <= 'z' && p[k] in bad && (p[k] - ' ') in bad
    ensures !Says(Ascii(Join(ws)), p)
  {
    var m, t, c := Join(ws), Ascii(Join(ws)), p[k];
    JoinSpelled(ws, bad);
    LowerAscii(t);
    forall i | 0 <= i < |t| ensures Lower(t)[i] != c as int {
      assert [Lower(t)[i]] == LowerUnit(m[i] as int) && m[i] != c && m[i] != c - ' ';
      assert (c - ' ') as int == c as int - 32;
    }
    if Says(t, p) { SaysLetters(t, p, c); }
  }

  lemma OccursPair(t: Text, p: Text, i: int)
    requires OccursAt(t, p, i) && |p| >= 2
    ensures i + 1 < |t| && t[i] == p[0] && t[i + 1] == p[1]
  {
    assert t[i..i + |p|][0] == t[i] && t[i..i + |p|][1] == t[i + 1];
  }

  lemma NoPairAt(m: string, p: string, i: int)
    requires (forall j :: 0 <= j < |m| ==> m[j] as int < 128) && WithoutNo(m) && |p| >= 2 && p[0] == 'n' && p[1] == 'o'
    ensures !OccursAt(Lower(Ascii(m)), Ascii(p), i)
  {
    var t := Ascii(m);
    LowerAscii(t);
    if 0 <= i < |t| - 1 {
      assert [Lower(t)[i]] == LowerUnit(m[i] as int) && [Lower(t)[i + 1]] == LowerUnit(m[i + 1] as int);
    }
    if OccursAt(Lower(t), Ascii(p), i) { OccursPair(Lower(t), Ascii(p), i); }
  }

  lemma WithoutNoSays(ws: seq<string>, bad: set<char>, p: string)
    requires ws != [] && Spelled(ws, bad) && |p| >= 2 && p[0] == 'n' && p[1] == 'o'
    requires forall w :: w in ws ==> WithoutNo(w)
    ensures !Says(Ascii(Join(ws)), p)
  {
    JoinSpelled(ws, bad);
    JoinWithoutNo(ws);
    forall i | 0 <= i <= |Lower(Ascii(Join(ws)))| ensures !OccursAt(Lower(Ascii(Join(ws))), Ascii(p), i) {
      NoPairAt(Join(ws), p, i);
    }
  }

  const NO_AVWG := {'a', 'A', 'v', 'V', 'w', 'W', 'g', 'G'}
  const NO_PUG := {'p', 'P', 'u', 'U', 'g', 'G'}
  const NO_VWLG := {'v', 'V', 'w', 'W', 'l', 'L', 'g', 'G'}
  const NO_VWUG := {'v', 'V', 'w', 'W', 'u', 'U', 'g', 'G'}

  lemma PriceFiresNoRule(ws: seq<string>)
    requires ws != [] && Spelled(ws, NO_AVWG)
    ensures RuleOf(Ascii(Join(ws))) == NoRule
  {
    SpelledSays(ws, NO_AVWG, "no sar price", 4);
    SpelledSays(ws, NO_AVWG, "price available", 7);
    SpelledSays(ws, NO_AVWG, "price unknown", 11);
    SpelledSays(ws, NO_AVWG, "vat", 0);
    SpelledSays(ws, NO_AVWG, "shipping", 7);
    SpelledSays(ws, NO_AVWG, "warranty", 0);
    SpelledSays(ws, NO_AVWG, "imported listing", 15);
    SpelledSays(ws, NO_AVWG, "missing", 6);
  }

  /** The three messages that ask for a store check. */
  lemma CheckFiresNoRule(ws: seq<string>)
    requires ws != [] && Spelled(ws, NO_PUG)
    ensures RuleOf(Ascii(Join(ws))) == NoRule
  {
    SpelledSays(ws, NO_PUG, "no sar price", 7);
    SpelledSays(ws, NO_PUG, "price available", 0);
    SpelledSays(ws, NO_PUG, "price unknown", 0);
    SpelledSays(ws, NO_PUG, "unknown", 0);
    SpelledSays(ws, NO_PUG, "unclear", 0);
    SpelledSays(ws, NO_PUG, "imported listing", 15);
    SpelledSays(ws, NO_PUG, "missing", 6);
  }

  lemma ImportFiresNoRule(ws: seq<string>)
    requires ws != [] && Spelled(ws, NO_VWLG) && forall w :: w in ws ==> WithoutNo(w)
    ensures RuleOf(Ascii(Join(ws))) == NoRule
  {
    WithoutNoSays(ws, NO_VWLG, "no sar price");
    SpelledSays(ws, NO_VWLG, "price available", 7);
    SpelledSays(ws, NO_VWLG, "price unknown", 11);
    SpelledSays(ws, NO_VWLG, "unknown", 5);
    SpelledSays(ws, NO_VWLG, "unclear", 3);
    SpelledSays(ws, NO_VWLG, "imported listing", 15);
    SpelledSays(ws, NO_VWLG, "missing", 6);
  }

  lemma SpecFiresNoRule(ws: seq<string>)
    requires ws != [] && Spelled(ws, NO_VWUG) && forall w :: w in ws ==> WithoutNo(w)
    ensures RuleOf(Ascii(Join(ws))) == NoRule
  {
    WithoutNoSays(ws, NO_VWUG, "no sar price");
    SpelledSays(ws, NO_VWUG, "price available", 7);
    SpelledSays(ws, NO_VWUG, "price unknown", 11);
    SpelledSays(ws, NO_VWUG, "unknown", 0);
    SpelledSays(ws, NO_VWUG, "unclear", 0);
    SpelledSays(ws, NO_VWUG, "imported listing", 15);
    SpelledSays(ws, NO_VWUG, "missing", 6);
  }

  lemma PriceWords()
    ensures Spelled(Words(PriceRule), NO_AVWG)
  {
  }

  lemma CheckWords(first: string)
    requires first in ["VAT", "Delivery", "Warranty"]
    ensures Avoids(first, NO_PUG)
  {
  }

  lemma CheckTail()
    ensures Spelled(["may", "need", "a", "store", "check."], NO_PUG) && Avoids("details", NO_PUG)
  {
  }

  lemma ImportHead()
    ensures Spelled(["This", "option", "may", "ship"], NO_VWLG)
  {
  }

  lemma ImportTail()
    ensures Spelled(["from", "outside", "Saudi", "stock."], NO_VWLG)
  {
  }

  lemma ImportWithoutNo()
    ensures forall w :: w in Words(ImportRule) ==> WithoutNo(w)
  {
  }

  lemma SpecHead()
    ensures Spelled(["Some", "specs"], NO_VWUG)
  {
  }

  lemma SpecTail()
    ensures Spelled(["need", "confirmation."], NO_VWUG)
  {
  }

  lemma SpecWords()
    ensures Spelled(Words(SpecRule), NO_VWUG)
  {
    SpecHead();
    SpecTail();
    assert Words(SpecRule) == ["Some", "specs"] + ["need", "confirmation."];
  }

  lemma SpecWithoutNo()
    ensures forall w :: w in Words(SpecRule) ==> WithoutNo(w)
  {
  }

  lemma WordsAreShort(r: Rule)
    requires r != NoRule
    ensures 0 < |Words(r)| <= 8 && forall w :: w in Words(r) ==> |w| <= 13
  {
  }

  lemma {:induction false} JoinLength(ws: seq<string>)
    requires forall w :: w in ws ==> |w| <= 13
    ensures |Join(ws)| <= 14 * |ws|
  {
    if ws != [] {
      assert ws[0] in ws;
      if |ws| > 1 {
        JoinLength(ws[1..]);
        assert Join(ws) == ws[0] + " " + Join(ws[1..]);
      }
    }
  }

  lemma PlainIsTidy(ws: seq<string>, bad: set<char>)
    requires 0 < |ws| <= 8 && Spelled(ws, bad)
    requires forall w :: w in ws ==> |w| <= 13
    ensures Tidy(Ascii(Join(ws))) && |Join(ws)| <= 150
  {
    SpelledIsTidy(ws, bad);
    JoinLength(ws);
  }

  /** Some letters no word of the message has, printable words, and no rule fired. */
  lemma MessageIsPlain(r: Rule) returns (bad: set<char>)
    requires r != NoRule
    ensures Spelled(Words(r), bad) && RuleOf(Ascii(Message(r))) == NoRule
  {
    match r {
      case PriceRule =>
        bad := NO_AVWG;
        PriceWords();
        PriceFiresNoRule(Words(r));
      case VatRule | ShippingRule | WarrantyRule =>
        bad := NO_PUG;
        CheckWords(Words(r)[0]);
        CheckTail();
        assert Words(r)[1..] == (if r == VatRule then [] else ["details"]) + ["may", "need", "a", "store", "check."];
        forall w | w in Words(r) ensures Avoids(w, NO_PUG) {
          assert w == Words(r)[0] || w in Words(r)[1..];
        }
        CheckFiresNoRule(Words(r));
      case ImportRule =>
        bad := NO_VWLG;
        ImportHead();
        ImportTail();
        assert Words(r) == ["This", "option", "may", "ship"] + ["from", "outside", "Saudi", "stock."];
        ImportWithoutNo();
        ImportFiresNoRule(Words(r));
      case SpecRule =>
        bad := NO_VWUG;
        SpecWords();
        SpecWithoutNo();
        SpecFiresNoRule(Words(r));
    }
  }

  /** No canned message fires a rule, so each is left as it is. */
  lemma MessageIsCalm(r: Rule)
    requires r != NoRule
    ensures IsCalm(Ascii(Message(r)))
  {
    var bad := MessageIsPlain(r);
    WordsAreShort(r);
    PlainIsTidy(Words(r), bad);
  }

  // ---------- idempotence ----------

  /** Every calmed note is left alone: it is tidy, short, and fires no rule. */
  ghost predicate IsCalm(t: Text) {
    Tidy(t) && |t| <= 150 && RuleOf(t) == NoRule
  }

  lemma CalmedIsCalm(note: Option<Text>)
    requires CalmBuyerNote(note).Some?
    ensures IsCalm(CalmBuyerNote(note).value)
  {
    var raw := if note.Some? then note.value else [];
    var text := Trim(Collapse(raw));
    CollapseBlanks(raw);
    TrimBlanks(Collapse(raw));
    if RuleOf(text) != NoRule {
      MessageIsCalm(RuleOf(text));
    } else if |text| > 150 {
      CutIsCalm(text);
    }
  }

  lemma CutIsCalm(text: Text)
    requires Tidy(text) && RuleOf(text) == NoRule && |text| > 150
    ensures IsCalm(Trim(text[..147]) + [DOT, DOT, DOT])
  {
    var front := text[..147];
    assert Blanks(front) && !IsSpace(front[0]);
    assert DropSpaces(front) == front;
    DropTrailingBlanks(front);
    var n := |Trim(front)|;
    assert Trim(front) == text[..n];
    CutFiresNoRule(text, n);
    var cut := text[..n] + [DOT, DOT, DOT];
    forall i | 0 <= i < |cut| && IsSpace(cut[i]) ensures cut[i] == SPACE && i < n - 1 && !IsSpace(cut[i + 1]) {
      assert i < n && cut[i] == text[i];
      assert i + 1 < n ==> cut[i + 1] == text[i + 1];
    }
  }

  /** Calming a calmed note changes nothing, whatever the note. */
  lemma CalmIsIdempotent(note: Option<Text>)
    ensures CalmBuyerNote(CalmBuyerNote(note)) == CalmBuyerNote(note)
    ensures CalmBuyerNote(note).Some? ==> 0 < |CalmBuyerNote(note).value| <= 150
  {
    if CalmBuyerNote(note).Some? {
      CalmedIsCalm(note);
      TidyIsNormal(CalmBuyerNote(note).value);
    }
  }

  /** The unit reads as this letter: a capital as its small letter, U+212A as a k. */
  ghost predicate ReadsAs(u: nat, c: nat) {
    || (u == c && !(65 <= u <= 90) && u != 0x212A)
    || (97 <= c <= 122 && u == c - 32)
    || (c == 107 && u == 0x212A)
  }

  /** The pattern occurs here, whatever the case of the text. */
  ghost predicate Spells(t: Text, p: string, at: int) {
    0 <= at && at + |p| <= |t|
    && forall j :: 0 <= j < |p| ==> ReadsAs(t[at + j], p[j] as int)
  }

  /** The text with U+0130 written as the two units of its small letter. */
  ghost function Expanded(t: Text): Text {
    if t == [] then []
    else
      var u := t[|t| - 1];
      Expanded(t[..|t| - 1]) + if u == 0x130 then [105, 0x307] else [u]
  }

  lemma LowerExpandedMore(t: Text, last: Text, u: nat)
    requires Lower(Expanded(t)) == Lower(t) && Lower(last) == LowerUnit(u)
    ensures Lower(Expanded(t) + last) == Lower(t + [u])
  {
    LowerAppend(Expanded(t), last);
    LowerSnoc(t, u);
  }

  lemma {:induction false} LowerExpanded(t: Text)
    ensures Lower(Expanded(t)) == Lower(t)
  {
    if t != [] {
      var front, u := t[..|t| - 1], t[|t| - 1];
      LowerExpanded(front);
      LowerLetters(u);
      LowerExpandedMore(front, if u == 0x130 then [105, 0x307] else [u], u);
      assert t == front + [u];
    }
  }

  lemma {:induction false} ExpandedIsPlain(t: Text)
    ensures forall i :: 0 <= i < |Expanded(t)| ==> Expanded(t)[i] != 0x130
  {
    if t != [] { ExpandedIsPlain(t[..|t| - 1]); }
  }

  lemma LowerLetters(u: nat)
    ensures Lower([u]) == LowerUnit(u)
    ensures Lower([105, 0x307]) == [105, 0x307] == LowerUnit(0x130)
  {
    LowerSnoc([], u);
    LowerSnoc([], 105);
    LowerSnoc([105], 0x307);
    assert [] + [u] == [u] && [] + [105] == [105] && [105] + [0x307] == [105, 0x307];
  }

  /** A pattern is said exactly if the text spells it somewhere. */
  lemma SaysMeans(t: Text, p: string)
    ensures Says(t, p) <==> exists at :: Spells(Expanded(t), p, at)
  {
    var e := Expanded(t);
    LowerExpanded(t);
    ExpandedIsPlain(t);
    LowerAscii(e);
    forall at ensures OccursAt(Lower(e), Ascii(p), at) <==> Spells(e, p, at) {
      if 0 <= at && at + |p| <= |e| { SpellsAt(e, p, at); }
    }
  }

  lemma SpellsAt(t: Text, p: string, at: nat)
    requires at + |p| <= |t| && forall i :: 0 <= i < |t| ==> t[i] != 0x130
    ensures |Lower(t)| == |t| && (OccursAt(Lower(t), Ascii(p), at) <==> Spells(t, p, at))
  {
    LowerAscii(t);
    forall j | 0 <= j < |p| ensures Lower(t)[at + j] == p[j] as int <==> ReadsAs(t[at + j], p[j] as int) {
      assert [Lower(t)[at + j]] == LowerUnit(t[at + j]);
    }
    if OccursAt(Lower(t), Ascii(p), at) {
      forall j | 0 <= j < |p| ensures Lower(t)[at + j] == p[j] as int {
        assert Lower(t)[at..at + |p|][j] == Ascii(p)[j];
      }
    }
    if Spells(t, p, at) {
      assert Lower(t)[at..at + |p|] == Ascii(p);
    }
  }

  /** The message of the first pattern that is said, word by word. */
  ghost function MessageFor(text: Text): Option<seq<string>> {
    var unsure := Says(text, "unknown") || Says(text, "unclear");
    if Says(text, "no sar price") || Says(text, "price available") || Says(text, "price unknown")
    then Some(["Price", "not", "listed", "yet."])
    else if Says(text, "vat") && unsure then Some(["VAT", "may", "need", "a", "store", "check."])
    else if Says(text, "shipping") && unsure then Some(["Delivery", "details", "may", "need", "a", "store", "check."])
    else if Says(text, "warranty") && unsure then Some(["Warranty", "details", "may", "need", "a", "store", "check."])
    else if Says(text, "imported listing")
    then Some(["This", "option", "may", "ship", "from", "outside", "Saudi", "stock."])
    else if Says(text, "missing") && Says(text, "spec") then Some(["Some", "specs", "need", "confirmation."])
    else None
  }

  lemma MessageForMeans(text: Text)
    ensures MessageFor(text) == if RuleOf(text) == NoRule then None else Some(Words(RuleOf(text)))
  {
  }

  /** Words are joined by single blanks. */
  lemma JoinCons(w: string, ws: seq<string>)
    ensures Join([w] + ws) == if ws == [] then w else w + " " + Join(ws)
  {
    assert ([w] + ws)[1..] == ws;
  }

  /** The whole function, on the words of the note: the first pattern that is said picks the message;
      otherwise the words are kept, and cut after 147 units, less a blank there, beyond 150. */
  lemma CalmBuyerNoteMeans(note: Option<Text>)
    ensures var text := Spaced(WordsOf(match note case None => [] case Some(t) => t));
            CalmBuyerNote(note) ==
              if text == [] then None
              else if MessageFor(text).Some? then Some(Ascii(Join(MessageFor(text).value)))
              else if |text| <= 150 then Some(text)
              else Some((if IsSpace(text[146]) then text[..146] else text[..147]) + Ascii("..."))
  {
    var raw := match note case None => [] case Some(t) => t;
    var text := Spaced(WordsOf(raw));
    assert Trim(Collapse(raw)) == text by { TidyingKeepsWords(raw); }
    assert MessageFor(text) == if RuleOf(text) == NoRule then None else Some(Words(RuleOf(text))) by {
      MessageForMeans(text);
    }
    assert text == [] || Tidy(text) by {
      CollapseBlanks(raw);
      TrimBlanks(Collapse(raw));
    }
    if text != [] { CutShortMeans(text); }
  }

  lemma CutShortMeans(text: Text)
    requires Tidy(text)
    ensures CutShort(text) == if |text| <= 150 then text
                              else (if IsSpace(text[146]) then text[..146] else text[..147]) + Ascii("...")
  {
    assert Ascii("...") == [DOT, DOT, DOT];
    if |text| > 150 { CutDropsOneBlank(text); }
  }

  lemma CutDropsOneBlank(text: Text)
    requires Tidy(text) && |text| > 150
    ensures Trim(text[..147]) == if IsSpace(text[146]) then text[..146] else text[..147]
  {
    var front := text[..147];
    assert DropSpaces(front) == front;
    assert front[..146] == text[..146] && !(IsSpace(text[145]) && IsSpace(text[146]));
    assert !IsSpace(text[145]) ==> DropTrailingSpaces(text[..146]) == text[..146];
  }

  // ---------- summaries ----------

  function Calmed(notes: seq<Option<Text>>): seq<Option<Text>> {
    seq(|notes|, i requires 0 <= i < |notes| => CalmBuyerNote(notes[i]))
  }

  /** `filter(Boolean)` on calmed notes, which are never empty. */
  function Somes(notes: seq<Option<Text>>): seq<Text> {
    if notes == [] then []
    else
      var last := notes[|notes| - 1];
      Somes(notes[..|notes| - 1]) + if last.Some? then [last.value] else []
  }

  function CalmAll(notes: seq<Option<Text>>): seq<Text> {
    Somes(Calmed(notes))
  }

  /** `Array.from(new Set(xs))` */
  function Distinct(xs: seq<Text>): seq<Text> {
    if xs == [] then []
    else
      var rest := Distinct(xs[..|xs| - 1]);
      if xs[|xs| - 1] in rest then rest else rest + [xs[|xs| - 1]]
  }

  /** The cut position of `slice(0, m)` and `slice(m)`: negative positions count from the end. */
  function Cut(length: nat, m: int): nat {
    if m < 0 then (if length + m < 0 then 0 else length + m) else if m < length then m else length
  }

  datatype Summary = Summary(visible: seq<Text>, details: seq<Text>, count: nat, hasDetails: bool)

  /** `summarizeBuyerNotes`; the default for `maxVisible` is 2. */
  function SummarizeBuyerNotes(notes: seq<Option<Text>>, maxVisible: Option<int>): Summary {
    var cleaned := Distinct(CalmAll(notes));
    var n := Cut(|cleaned|, if maxVisible.Some? then maxVisible.value else 2);
    Summary(cleaned[..n], cleaned[n..], |cleaned|, |cleaned[n..]| > 0)
  }

  /** No repeats, and the same elements. */
  lemma {:induction false} DistinctFacts(xs: seq<Text>)
    ensures forall i, j :: 0 <= i < j < |Distinct(xs)| ==> Distinct(xs)[i] != Distinct(xs)[j]
    ensures forall x :: x in Distinct(xs) <==> x in xs
  {
    if xs != [] {
      DistinctFacts(xs[..|xs| - 1]);
      assert xs == xs[..|xs| - 1] + [xs[|xs| - 1]];
    }
  }

  lemma {:induction false} DistinctStays(xs: seq<Text>)
    requires forall i, j :: 0 <= i < j < |xs| ==> xs[i] != xs[j]
    ensures Distinct(xs) == xs
  {
    if xs != [] {
      DistinctStays(xs[..|xs| - 1]);
      assert xs == xs[..|xs| - 1] + [xs[|xs| - 1]];
    }
  }

  lemma {:induction false} SomesElements(notes: seq<Option<Text>>)
    ensures forall t :: t in Somes(notes) ==> Some(t) in notes
  {
    if notes != [] { SomesElements(notes[..|notes| - 1]); }
  }

  lemma CalmAllCalm(notes: seq<Option<Text>>, t: Text)
    requires t in CalmAll(notes)
    ensures IsCalm(t)
  {
    SomesElements(Calmed(notes));
    var i :| 0 <= i < |notes| && Calmed(notes)[i] == Some(t);
    CalmedIsCalm(notes[i]);
  }

  ghost function Wrap(xs: seq<Text>): seq<Option<Text>> {
    seq(|xs|, i requires 0 <= i < |xs| => Some(xs[i]))
  }

  lemma {:induction false} SomesWrap(xs: seq<Text>)
    ensures Somes(Wrap(xs)) == xs
  {
    if xs != [] {
      var n := |xs| - 1;
      assert Wrap(xs)[..n] == Wrap(xs[..n]);
      SomesWrap(xs[..n]);
      assert xs == xs[..n] + [xs[n]];
    }
  }

  lemma CalmAllStays(xs: seq<Text>)
    requires forall i :: 0 <= i < |xs| ==> IsCalm(xs[i])
    ensures CalmAll(Wrap(xs)) == xs
  {
    forall i | 0 <= i < |xs| ensures Calmed(Wrap(xs))[i] == Wrap(xs)[i] {
      CalmStays(xs[i]);
    }
    assert Calmed(Wrap(xs)) == Wrap(xs);
    SomesWrap(xs);
  }

  lemma CalmStays(t: Text)
    requires IsCalm(t)
    ensures CalmBuyerNote(Some(t)) == Some(t)
  {
    TidyIsNormal(t);
  }

  lemma Rejoin(xs: seq<Text>, m: int)
    ensures xs[..Cut(|xs|, m)] + xs[Cut(|xs|, m)..] == xs
  {
  }

  /** Visible followed by details is the order-preserving set of calmed notes, and the visible part
      respects `maxVisible`. */
  lemma SummaryShowsCalmedNotes(notes: seq<Option<Text>>, maxVisible: Option<int>)
    ensures var s := SummarizeBuyerNotes(notes, maxVisible);
            s.visible + s.details == Distinct(CalmAll(notes)) && s.count == |s.visible| + |s.details|
    ensures var s, m := SummarizeBuyerNotes(notes, maxVisible), if maxVisible.Some? then maxVisible.value else 2;
            && (m >= 0 ==> |s.visible| == if m < s.count then m else s.count)
            && (m < 0 ==> |s.visible| == if s.count + m > 0 then s.count + m else 0)
            && (s.hasDetails <==> |s.visible| < s.count)
  {
    Rejoin(Distinct(CalmAll(notes)), if maxVisible.Some? then maxVisible.value else 2);
  }

  lemma ResummarizedNotes(notes: seq<Option<Text>>)
    ensures Distinct(CalmAll(Wrap(Distinct(CalmAll(notes))))) == Distinct(CalmAll(notes))
  {
    DistinctFacts(CalmAll(notes));
    forall i | 0 <= i < |Distinct(CalmAll(notes))| ensures IsCalm(Distinct(CalmAll(notes))[i]) {
      CalmAllCalm(notes, Distinct(CalmAll(notes))[i]);
    }
    CalmAllStays(Distinct(CalmAll(notes)));
    DistinctStays(Distinct(CalmAll(notes)));
  }

  /** Summarising the notes of a summary gives the summary back. */
  lemma SummaryIsStable(notes: seq<Option<Text>>, maxVisible: Option<int>)
    ensures var s := SummarizeBuyerNotes(notes, maxVisible);
            SummarizeBuyerNotes(Wrap(s.visible + s.details), maxVisible) == s
  {
    var s := SummarizeBuyerNotes(notes, maxVisible);
    assert s.visible + s.details == Distinct(CalmAll(notes));
    ResummarizedNotes(notes);
  }
}
