/** The near miss a configuration is told of: the word within two edits. */
module Nearest {
  import opened Basics

  // ---- The distance a row at a time computes ----

  function Least(a: nat, b: nat, c: nat): nat {
    if a <= b && a <= c then a else if b <= c then b else c
  }

  function Init(word: string): string
    requires word != []
  {
    word[..|word| - 1]
  }

  /** What the last characters of two words cost. */
  function Differ(a: string, b: string): nat
    requires a != [] && b != []
  {
    if a[|a| - 1] != b[|b| - 1] then 1 else 0
  }

  /** The edit distance, by the last characters of the two words. */
  function Lev(a: string, b: string): nat
    decreases |a| + |b|
  {
    if a == [] then |b|
    else if b == [] then |a|
    else Least(Lev(Init(a), Init(b)) + Differ(a, b), Lev(a, Init(b)) + 1, Lev(Init(a), b) + 1)
  }

  lemma {:induction false} LevEmpty(a: string, b: string)
    ensures a == [] ==> Lev(a, b) == |b|
    ensures b == [] ==> Lev(a, b) == |a|
  {}

  lemma {:induction false} LevCases(a: string, b: string)
    requires a != [] && b != []
    ensures Lev(a, b) == Least(Lev(Init(a), Init(b)) + Differ(a, b), Lev(a, Init(b)) + 1, Lev(Init(a), b) + 1)
  {
    hide Least, Differ;
  }

  /** One step of the loop: the distance of two words a character longer. */
  lemma LevStep(a: string, b: string, i: nat, j: nat)
    requires i < |a| && j < |b|
    ensures Lev(a[..i + 1], b[..j + 1])
              == Least(Lev(a[..i], b[..j]) + (if a[i] != b[j] then 1 else 0), Lev(a[..i + 1], b[..j]) + 1,
                       Lev(a[..i], b[..j + 1]) + 1)
  {
    hide Lev;
    LevCases(a[..i + 1], b[..j + 1]);
    assert Init(a[..i + 1]) == a[..i] && Init(b[..j + 1]) == b[..j];
  }

  /** Row `i` of the table, overwritten to row `i + 1` one place at a time. */
  method Distance(a: string, b: string) returns (edits: nat)
    ensures edits == Lev(a, b)
  {
    hide Lev, Least;
    var row := new nat[|b| + 1](j => j);
    forall j | 0 <= j <= |b| ensures row[j] == Lev(a[..0], b[..j]) { LevEmpty(a[..0], b[..j]); }
    for i := 0 to |a|
      invariant forall j :: 0 <= j <= |b| ==> row[j] == Lev(a[..i], b[..j])
    {
      var previous := row[0];
      row[0] := i + 1;
      LevEmpty(a[..i + 1], b[..0]);
      for j := 0 to |b|
        invariant previous == Lev(a[..i], b[..j])
        invariant forall k :: 0 <= k <= j ==> row[k] == Lev(a[..i + 1], b[..k])
        invariant forall k :: j < k <= |b| ==> row[k] == Lev(a[..i], b[..k])
      {
        var here := row[j + 1];
        LevStep(a, b, i, j);
        row[j + 1] := Least(previous + (if a[i] != b[j] then 1 else 0), row[j] + 1, here + 1);
        previous := here;
      }
    }
    assert a[..|a|] == a && b[..|b|] == b;
    return row[|b|];
  }

  // ---- It is the least number of edits ----

  datatype Edit = Insert(at: nat, c: char) | Delete(at: nat) | Replace(at: nat, c: char)

  predicate Fits(edit: Edit, word: string) {
    if edit.Insert? then edit.at <= |word| else edit.at < |word|
  }

  function Edited(edit: Edit, word: string): string
    requires Fits(edit, word)
  {
    match edit
    case Insert(at, c) => word[..at] + [c] + word[at..]
    case Delete(at) => word[..at] + word[at + 1..]
    case Replace(at, c) => word[at := c]
  }

  /** What a word becomes under some edits, one after another, if each fits. */
  function After(edits: seq<Edit>, word: string): Option<string> {
    if edits == [] then Some(word)
    else if Fits(edits[0], word) then After(edits[1..], Edited(edits[0], word))
    else None
  }

  lemma {:induction false} AfterMore(edits: seq<Edit>, last: Edit, word: string)
    requires After(edits, word).Some? && Fits(last, After(edits, word).value)
    ensures After(edits + [last], word) == Some(Edited(last, After(edits, word).value))
  {
    if edits == [] {
      assert ([] + [last])[1..] == [];
    } else {
      assert (edits + [last])[1..] == edits[1..] + [last];
      AfterMore(edits[1..], last, Edited(edits[0], word));
    }
  }

  /** Edits leave what follows a word as it was. */
  lemma {:induction false} AfterKeepsEnd(edits: seq<Edit>, word: string, end: char)
    requires After(edits, word).Some?
    ensures After(edits, word + [end]) == Some(After(edits, word).value + [end])
  {
    if edits != [] {
      assert Edited(edits[0], word + [end]) == Edited(edits[0], word) + [end];
      AfterKeepsEnd(edits[1..], Edited(edits[0], word), end);
    }
  }

  /** The same, said of a word with a last character. */
  lemma AfterKeepsLast(edits: seq<Edit>, a: string, b: string)
    requires a != [] && After(edits, Init(a)) == Some(b)
    ensures After(edits, a) == Some(b + [a[|a| - 1]])
  {
    AfterKeepsEnd(edits, Init(a), a[|a| - 1]);
    assert Init(a) + [a[|a| - 1]] == a;
  }

  lemma OneMore(edits: seq<Edit>, a: string, last: Edit, b: string) returns (more: seq<Edit>)
    requires After(edits, a).Some? && Fits(last, After(edits, a).value) && Edited(last, After(edits, a).value) == b
    ensures |more| == |edits| + 1 && After(more, a) == Some(b)
  {
    AfterMore(edits, last, a);
    more := edits + [last];
  }

  lemma NoEdits() returns (edits: seq<Edit>)
    ensures edits == [] && After(edits, []) == Some([])
  {
    edits := [];
  }

  /** The last edit, which makes the last characters agree. */
  lemma LastEdit(b: string, c: char)
    requires b != []
    ensures Edited(Insert(|b| - 1, b[|b| - 1]), Init(b)) == b
    ensures Edited(Replace(|b| - 1, b[|b| - 1]), Init(b) + [c]) == b
  {}

  lemma LastDeleted(b: string, c: char)
    ensures Edited(Delete(|b|), b + [c]) == b
  {}

  /** So many edits do it. */
  lemma {:induction false} EnoughEdits(a: string, b: string) returns (edits: seq<Edit>)
    ensures |edits| == Lev(a, b) && After(edits, a) == Some(b)
    decreases |a| + |b|
  {
    hide Lev, After, Edited;
    LevEmpty(a, b);
    if a == [] && b == [] { edits := NoEdits(); return; }
    if a != [] && b != [] { LevCases(a, b); }
    if b != [] && (a == [] || Lev(a, b) == Lev(a, Init(b)) + 1) {
      edits := EnoughEdits(a, Init(b));
      LevEmpty(a, Init(b));
      LastEdit(b, ' ');
      edits := OneMore(edits, a, Insert(|b| - 1, b[|b| - 1]), b);
    } else if b == [] || Lev(a, b) == Lev(Init(a), b) + 1 {
      edits := EnoughEdits(Init(a), b);
      AfterKeepsLast(edits, a, b);
      LevEmpty(Init(a), b);
      LastDeleted(b, a[|a| - 1]);
      edits := OneMore(edits, a, Delete(|b|), b);
    } else {
      edits := EnoughEdits(Init(a), Init(b));
      AfterKeepsLast(edits, a, Init(b));
      LastEdit(b, a[|a| - 1]);
      assert Lev(a, b) == Lev(Init(a), Init(b)) + Differ(a, b);
      if Differ(a, b) == 1 {
        edits := OneMore(edits, a, Replace(|b| - 1, b[|b| - 1]), b);
      } else {
        assert Init(b) + [a[|a| - 1]] == b;
      }
    }
  }

  /** A distance is at least what the lengths differ by, and at most their sum. */
  lemma {:induction false} Lengths(a: string, b: string)
    ensures |a| <= |b| + Lev(a, b) && |b| <= |a| + Lev(a, b) && Lev(a, b) <= |a| + |b|
    decreases |a| + |b|
  {
    hide Lev;
    LevEmpty(a, b);
    if a != [] && b != [] {
      LevCases(a, b);
      Lengths(Init(a), Init(b));
      Lengths(a, Init(b));
      Lengths(Init(a), b);
    }
  }

  /** Distances are no longer than by way of another word. */
  lemma {:induction false} Triangle(a: string, b: string, c: string)
    ensures Lev(a, c) <= Lev(a, b) + Lev(b, c)
    decreases |a| + |b| + |c|
  {
    hide Lev;
    if a == [] || b == [] || c == [] {
      LevEmpty(a, b);
      LevEmpty(b, c);
      LevEmpty(a, c);
      Lengths(a, b);
      Lengths(b, c);
      Lengths(a, c);
    } else {
      LevCases(a, b);
      LevCases(b, c);
      LevCases(a, c);
      if Lev(a, b) == Lev(Init(a), b) + 1 {
        Triangle(Init(a), b, c);
      } else if Lev(b, c) == Lev(b, Init(c)) + 1 {
        Triangle(a, b, Init(c));
      } else if Lev(b, c) == Lev(Init(b), c) + 1 {
        if Lev(a, b) == Lev(a, Init(b)) + 1 { Triangle(a, Init(b), c); } else { Triangle(Init(a), Init(b), c); }
      } else if Lev(a, b) == Lev(a, Init(b)) + 1 {
        Triangle(a, Init(b), Init(c));
      } else {
        Triangle(Init(a), Init(b), Init(c));
      }
    }
  }

  lemma {:induction false} SameIsNear(a: string)
    ensures Lev(a, a) == 0
  {
    if a != [] { SameIsNear(Init(a)); }
  }

  lemma {:induction false} SharedEnd(a: string, b: string, end: string)
    ensures Lev(a + end, b + end) <= Lev(a, b)
  {
    hide Lev;
    if end == [] {
      assert a + end == a && b + end == b;
    } else {
      LevCases(a + end, b + end);
      var n := |end| - 1;
      SharedEnd(a, b, end[..n]);
      assert Init(a + end) == a + end[..n] && Init(b + end) == b + end[..n];
    }
  }

  lemma NextIsNear(head: string, c: char, d: char)
    ensures Lev(head, head + [c]) <= 1 && Lev(head + [c], head) <= 1 && Lev(head + [c], head + [d]) <= 1
  {
    hide Lev;
    var (x, y) := (head + [c], head + [d]);
    assert Init(x) == head && Init(y) == head;
    SameIsNear(head);
    LevCases(x, y);
    LevEmpty(head, x);
    LevEmpty(x, head);
    if head != [] {
      LevCases(head, x);
      LevCases(x, head);
    }
  }

  lemma OneEditIsNear(edit: Edit, word: string)
    requires Fits(edit, word)
    ensures Lev(word, Edited(edit, word)) <= 1
  {
    hide Lev;
    var head := word[..edit.at];
    if edit.Insert? {
      NextIsNear(head, edit.c, edit.c);
      SharedEnd(head, head + [edit.c], word[edit.at..]);
      assert word == head + word[edit.at..];
    } else {
      var c, rest := word[edit.at], word[edit.at + 1..];
      var d := if edit.Replace? then edit.c else c;
      NextIsNear(head, c, d);
      assert word == head + [c] + rest;
      SharedEnd(head + [c], if edit.Delete? then head else head + [d], rest);
      assert edit.Replace? ==> Edited(edit, word) == head + [d] + rest;
    }
  }

  /** And fewer never do. */
  lemma {:induction false} NoFewerEdits(edits: seq<Edit>, word: string)
    requires After(edits, word).Some?
    ensures Lev(word, After(edits, word).value) <= |edits|
  {
    if edits == [] {
      SameIsNear(word);
    } else {
      var next := Edited(edits[0], word);
      NoFewerEdits(edits[1..], next);
      OneEditIsNear(edits[0], word);
      Triangle(word, next, After(edits, word).value);
    }
  }

  // ---- The nearest word ----

  /** The order of two words, by their characters. */
  predicate Before(a: string, b: string) {
    b != [] && (a == [] || a[0] < b[0] || (a[0] == b[0] && Before(a[1..], b[1..])))
  }

  lemma {:induction false} BeforeTrans(a: string, b: string, c: string)
    requires Before(a, b) && Before(b, c)
    ensures Before(a, c)
  {
    if a != [] && a[0] == b[0] && b[0] == c[0] { BeforeTrans(a[1..], b[1..], c[1..]); }
  }

  lemma {:induction false} BeforeIsTotal(a: string, b: string)
    ensures Before(a, b) || Before(b, a) || a == b
    ensures !(Before(a, b) && Before(b, a)) && !Before(a, a)
  {
    if a != [] {
      BeforeIsTotal(a[1..], a[1..]);
      if b != [] {
        BeforeIsTotal(a[1..], b[1..]);
        assert a == [a[0]] + a[1..] && b == [b[0]] + b[1..];
      }
    }
  }

  /** Whether one word is suggested before another: nearer, or as near and first. */
  predicate Sooner(word: string, one: string, other: string) {
    Lev(word, one) < Lev(word, other) || (Lev(word, one) == Lev(word, other) && Before(one, other))
  }

  /** The soonest word within two edits, and none only when there is none. */
  method Nearest(word: string, among: seq<string>) returns (best: Option<string>)
    ensures best.None? <==> forall each :: each in among ==> Lev(word, each) > 2
    ensures best.Some? ==> best.value in among && Lev(word, best.value) <= 2
    ensures best.Some? ==> forall each :: each in among && each != best.value ==> Sooner(word, best.value, each)
  {
    best := None;
    var least := 0;
    for i := 0 to |among|
      invariant best.None? ==> forall each :: each in among[..i] ==> Lev(word, each) > 2
      invariant best.Some? ==> best.value in among[..i] && least == Lev(word, best.value) <= 2
      invariant best.Some? ==> forall each :: each in among[..i] && each != best.value ==>
          Sooner(word, best.value, each)
    {
      var each := among[i];
      var edits := Distance(word, each);
      assert among[..i + 1] == among[..i] + [each];
      if edits <= 2 && (best.None? || edits < least || (edits == least && Before(each, best.value))) {
        forall other | other in among[..i] && other != each && best.Some? ensures Sooner(word, each, other) {
          if other != best.value && Before(each, best.value) && Before(best.value, other) {
            BeforeTrans(each, best.value, other);
          }
        }
        best, least := Some(each), edits;
      } else if best.Some? {
        BeforeIsTotal(best.value, each);
      }
    }
    assert among[..|among|] == among;
  }
}
