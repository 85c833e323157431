/** An inventory slot: an item id, a count and a damage value, empty when
    the id is negative, and its debugging text. */
module Slot {
  import opened Common
  import opened Decimal

  /** A .NET short. */
  type i16 = x: int | -0x8000 <= x < 0x8000

  /** The NBT metadata is not part of this model. */
  datatype Slot = Slot(id: i16, count: byte, damage: i16)

  predicate IsEmpty(s: Slot)
  {
    s.id < 0
  }

  /** CreateEmpty: id -1, the other fields at their defaults. */
  function CreateEmpty(): (s: Slot)
    ensures IsEmpty(s)
    ensures s.count == 0 && s.damage == 0
  {
    Slot(-1, 0, 0)
  }

  const EmptyText := "(empty slot)"

  /** ToString: "(empty slot)", or "(id,damage:count)". */
  function ToString(s: Slot): (t: string)
    ensures IsEmpty(s) <==> t == EmptyText
    ensures |t| >= 2 && t[0] == '(' && t[|t| - 1] == ')'
  {
    if IsEmpty(s) then EmptyText
    else
      var t := "(" + Show(s.id) + "," + Show(s.damage) + ":" + Show(s.count) + ")";
      assert t[1] == Show(s.id)[0] != 'e';
      t
  }

  /** The first position of `c` in `s`, or |s|. */
  function Find(s: string, c: char): (k: nat)
    ensures k <= |s|
    ensures forall i :: 0 <= i < k ==> s[i] != c
    ensures k < |s| ==> s[k] == c
  {
    if |s| == 0 || s[0] == c then 0 else 1 + Find(s[1..], c)
  }

  /** Splits "a,b:c" at the first comma and the first colon after it. */
  function SplitInner(inner: string): Option<(string, string, string)>
  {
    var comma := Find(inner, ',');
    if comma == |inner| then None
    else
      var rest := inner[comma + 1..];
      var colon := Find(rest, ':');
      if colon == |rest| then None
      else Some((inner[..comma], rest[..colon], rest[colon + 1..]))
  }

  /** Splits "(a,b:c)" into a, b and c. */
  function Fields(t: string): Option<(string, string, string)>
  {
    if |t| < 2 || t[0] != '(' || t[|t| - 1] != ')' then None
    else SplitInner(t[1..|t| - 1])
  }

  /** Reads back the text of a non-empty slot. */
  function Parse(t: string): Option<Slot>
  {
    match Fields(t)
    case None => None
    case Some((idText, damageText, countText)) =>
      match (ParseInt(idText), ParseInt(damageText), ParseInt(countText))
      case (Some(id), Some(damage), Some(count)) =>
        if id < 0 || 0x8000 <= id || damage < -0x8000 || 0x8000 <= damage || count < 0 || 256 <= count then None
        else Some(Slot(id, count, damage))
      case _ => None
  }

  /** Show never writes a comma or a colon. */
  lemma ShowHasNoSeparators(x: int, c: char)
    requires c == ',' || c == ':'
    ensures Find(Show(x), c) == |Show(x)|
  {
    var s := Show(x);
    assert forall i :: 0 <= i < |s| ==> s[i] != c by {
      forall i | 0 <= i < |s|
        ensures s[i] != c
      {
        if i > 0 {
          assert IsDigit(s[i]);
        }
      }
    }
    FindAbsent(s, c);
  }

  lemma {:induction false} FindAbsent(s: string, c: char)
    requires forall i :: 0 <= i < |s| ==> s[i] != c
    ensures Find(s, c) == |s|
  {
    if |s| > 0 {
      FindAbsent(s[1..], c);
    }
  }

  lemma {:induction false} FindAfter(a: string, c: char, b: string)
    requires Find(a, c) == |a|
    ensures Find(a + [c] + b, c) == |a|
  {
    if |a| > 0 {
      assert (a + [c] + b)[1..] == a[1..] + [c] + b;
      FindAfter(a[1..], c, b);
    }
  }

  lemma SplitInnerOf(a: string, b: string, c: string)
    requires Find(a, ',') == |a| && Find(b, ':') == |b|
    ensures SplitInner(a + [','] + (b + [':'] + c)) == Some((a, b, c))
  {
    var inner := a + [','] + (b + [':'] + c);
    FindAfter(a, ',', b + [':'] + c);
    var rest := inner[|a| + 1..];
    assert rest == b + [':'] + c;
    FindAfter(b, ':', c);
    assert inner[..|a|] == a;
    assert rest[..|b|] == b;
    assert rest[|b| + 1..] == c;
  }

  lemma FieldsOfParenthesised(inner: string)
    ensures Fields(['('] + inner + [')']) == SplitInner(inner)
  {
    var t := ['('] + inner + [')'];
    assert t[1..|t| - 1] == inner;
  }

  /** Fields finds the three parts again when the first has no comma and
      the second no colon. */
  lemma FieldsOf(a: string, b: string, c: string)
    requires Find(a, ',') == |a| && Find(b, ':') == |b|
    ensures Fields("(" + a + "," + b + ":" + c + ")") == Some((a, b, c))
  {
    var inner := a + [','] + (b + [':'] + c);
    assert "(" + a + "," + b + ":" + c + ")" == ['('] + inner + [')'];
    FieldsOfParenthesised(inner);
    SplitInnerOf(a, b, c);
  }

  /** The text of a non-empty slot determines the slot. */
  lemma ParseToString(s: Slot)
    requires !IsEmpty(s)
    ensures Parse(ToString(s)) == Some(s)
  {
    ShowHasNoSeparators(s.id, ',');
    ShowHasNoSeparators(s.damage, ':');
    FieldsOf(Show(s.id), Show(s.damage), Show(s.count));
    ParseShow(s.id);
    ParseShow(s.damage);
    ParseShow(s.count);
  }

  /** Two non-empty slots print the same only when they are equal. */
  lemma ToStringInjective(a: Slot, b: Slot)
    requires !IsEmpty(a) && !IsEmpty(b)
    requires ToString(a) == ToString(b)
    ensures a == b
  {
    ParseToString(a);
    ParseToString(b);
  }
}
