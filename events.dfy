/**
 * The events the program publishes to its subscribers: key presses with their modifier names, pointer
 * positions in world coordinates and mouse buttons. Each message starts with a one-byte event tag.
 */
module Events {
  import opened Common

  /** The modifier flags of a key press. */
  datatype KeyMods = KeyMods(shift: bool, ctrl: bool, alt: bool, logo: bool)

  /** The four modifier names, in the order they are listed. */
  const ModifierOrder: seq<string> := ["shift", "ctrl", "alt", "logo"]

  /** The position of a modifier name in the listing order (4 for any other string). */
  function Rank(name: string): (r: nat)
    ensures r < 4 <==> name in ModifierOrder
    ensures r < 4 ==> ModifierOrder[r] == name
  {
    if name == "shift" then 0
    else if name == "ctrl" then 1
    else if name == "alt" then 2
    else if name == "logo" then 3
    else 4
  }

  /**
   * What a published modifier list must be: only modifier names, strictly in the listing order (so
   * without repeats), and a name is listed exactly when its flag is set.
   */
  predicate ListsModifiers(m: KeyMods, mods: seq<string>) {
    (forall i :: 0 <= i < |mods| ==> Rank(mods[i]) < 4)
    && RankSorted(mods)
    && ("shift" in mods <==> m.shift) && ("ctrl" in mods <==> m.ctrl)
    && ("alt" in mods <==> m.alt) && ("logo" in mods <==> m.logo)
  }

  /** The flag of the modifier of rank r. */
  function Flag(m: KeyMods, r: nat): bool
    requires r < 4
  {
    if r == 0 then m.shift else if r == 1 then m.ctrl else if r == 2 then m.alt else m.logo
  }

  /** The listing rule for the first k modifiers only. */
  predicate ListsFirst(m: KeyMods, mods: seq<string>, k: nat)
    requires k <= 4
  {
    (forall i :: 0 <= i < |mods| ==> Rank(mods[i]) < k)
    && RankSorted(mods)
    && (forall r :: 0 <= r < k ==> (ModifierOrder[r] in mods <==> Flag(m, r)))
  }

  /** The list after the push of modifier k, when its flag is set. */
  function Pushed(m: KeyMods, mods: seq<string>, k: nat): seq<string>
    requires k < 4
  {
    if Flag(m, k) then mods + [ModifierOrder[k]] else mods
  }

  /** One conditional push extends the listing rule by one modifier. */
  lemma PushStep(m: KeyMods, mods: seq<string>, k: nat)
    requires k < 4 && ListsFirst(m, mods, k)
    ensures ListsFirst(m, Pushed(m, mods, k), k + 1)
  {
    var name := ModifierOrder[k];
    assert Rank(name) == k;
    assert name !in mods;
    var r := Pushed(m, mods, k);
    forall q | 0 <= q < k
      ensures ModifierOrder[q] in r <==> ModifierOrder[q] in mods
    {
      assert Rank(ModifierOrder[q]) == q;
    }
  }

  /** The rule for all four modifiers is the listing rule. */
  lemma ListsAll(m: KeyMods, mods: seq<string>)
    requires ListsFirst(m, mods, 4)
    ensures ListsModifiers(m, mods)
  {
    assert ModifierOrder[0] == "shift" && ModifierOrder[1] == "ctrl";
    assert ModifierOrder[2] == "alt" && ModifierOrder[3] == "logo";
  }

  /** The modifier list of `key_down_event`, pushed flag by flag. */
  method ModifierNames(m: KeyMods) returns (mods: seq<string>)
    ensures ListsModifiers(m, mods)
    ensures |mods| <= 4
  {
    mods := [];
    ghost var prev := mods;
    if m.shift {
      mods := mods + ["shift"];
    }
    assert mods == Pushed(m, prev, 0);
    PushStep(m, prev, 0);
    prev := mods;
    if m.ctrl {
      mods := mods + ["ctrl"];
    }
    assert mods == Pushed(m, prev, 1);
    PushStep(m, prev, 1);
    prev := mods;
    if m.alt {
      mods := mods + ["alt"];
    }
    assert mods == Pushed(m, prev, 2);
    PushStep(m, prev, 2);
    prev := mods;
    if m.logo {
      mods := mods + ["logo"];
    }
    assert mods == Pushed(m, prev, 3);
    PushStep(m, prev, 3);
    ListsAll(m, mods);
  }

  /** Strictly ordered by rank. */
  predicate RankSorted(s: seq<string>) {
    forall i, j :: 0 <= i < j < |s| ==> Rank(s[i]) < Rank(s[j])
  }

  /** Two rank-sorted lists of modifier names with the same members are the same list. */
  lemma {:induction false} SortedUnique(a: seq<string>, b: seq<string>)
    requires RankSorted(a) && RankSorted(b)
    requires forall x :: x in a <==> x in b
    ensures a == b
    decreases |a| + |b|, if a == [] then 1 else 0
  {
    if a != [] {
      assert a[0] in b;
      var k :| 0 <= k < |b| && b[k] == a[0];
      assert b[0] in a;
      var l :| 0 <= l < |a| && a[l] == b[0];
      assert k == 0;
      forall x
        ensures x in a[1..] <==> x in b[1..]
      {
        if x in a[1..] {
          var i :| 0 <= i < |a[1..]| && a[1..][i] == x;
          assert Rank(a[0]) < Rank(x);
          assert x in b;
        }
        if x in b[1..] {
          var i :| 0 <= i < |b[1..]| && b[1..][i] == x;
          assert Rank(b[0]) < Rank(x);
          assert x in a;
        }
      }
      SortedUnique(a[1..], b[1..]);
      assert a == [a[0]] + a[1..];
      assert b == [b[0]] + b[1..];
    } else if b != [] {
      SortedUnique(b, a);
    }
  }

  /** The listing rule leaves no choice: two lists that both satisfy it for the same flags are equal. */
  lemma ModifiersUnique(m: KeyMods, a: seq<string>, b: seq<string>)
    requires ListsModifiers(m, a) && ListsModifiers(m, b)
    ensures a == b
  {
    forall x
      ensures x in a <==> x in b
    {
      if x in a {
        var i :| 0 <= i < |a| && a[i] == x;
        assert ModifierOrder[Rank(x)] == x;
      }
      if x in b {
        var i :| 0 <= i < |b| && b[i] == x;
        assert ModifierOrder[Rank(x)] == x;
      }
    }
    SortedUnique(a, b);
  }

  datatype MouseButton = Left | Middle | Right | Unknown

  /** `MouseButtonAsString::to_u8`. */
  function ButtonCode(b: MouseButton): (r: byte)
    ensures r < 4
  {
    match b
    case Left => 0
    case Middle => 1
    case Right => 2
    case Unknown => 3
  }

  /** The subscriber's reading of a button code. */
  function ButtonFromCode(r: byte): (b: Option<MouseButton>)
    ensures b.Some? <==> r < 4
  {
    if r == 0 then Some(Left)
    else if r == 1 then Some(Middle)
    else if r == 2 then Some(Right)
    else if r == 3 then Some(Unknown)
    else None
  }

  /** The publisher's and the subscriber's button tables agree. */
  lemma ButtonRoundTrip(b: MouseButton)
    ensures ButtonFromCode(ButtonCode(b)) == Some(b)
  {
  }

  lemma ButtonCodeRoundTrip(r: byte)
    requires r < 4
    ensures ButtonCode(ButtonFromCode(r).value) == r
  {
  }

  /**
   * A published event. Pointer positions are in world coordinates, None where the projection cannot
   * be inverted; the wheel reports its raw deltas.
   */
  datatype Event =
    | KeyDown(key: string, mods: seq<string>, repeat: bool)
    | MouseMotion(pos: Option<Vec2>)
    | MouseWheel(dx: real, dy: real)
    | MouseButtonDown(button: byte, pos: Option<Vec2>)
    | MouseButtonUp(button: byte, pos: Option<Vec2>)

  /** The `PubEvents` tag that opens each published message. */
  function EventTag(e: Event): (r: byte)
    ensures r < 5
  {
    match e
    case KeyDown(_, _, _) => 0
    case MouseMotion(_) => 1
    case MouseWheel(_, _) => 2
    case MouseButtonDown(_, _) => 3
    case MouseButtonUp(_, _) => 4
  }

  /** The kinds of message a subscriber tells apart. */
  datatype EventKind = KeyDownKind | MotionKind | WheelKind | ButtonDownKind | ButtonUpKind

  function KindOf(e: Event): EventKind {
    match e
    case KeyDown(_, _, _) => KeyDownKind
    case MouseMotion(_) => MotionKind
    case MouseWheel(_, _) => WheelKind
    case MouseButtonDown(_, _) => ButtonDownKind
    case MouseButtonUp(_, _) => ButtonUpKind
  }

  /** The subscriber's table of event tags, KEY_DOWN = 0 to MOUSE_BUTTON_UP = 4; other tags match no case. */
  function KindFromTag(t: byte): (k: Option<EventKind>)
    ensures k.Some? <==> t < 5
  {
    if t == 0 then Some(KeyDownKind)
    else if t == 1 then Some(MotionKind)
    else if t == 2 then Some(WheelKind)
    else if t == 3 then Some(ButtonDownKind)
    else if t == 4 then Some(ButtonUpKind)
    else None
  }

  /** The publisher's tags and the subscriber's table agree: every message is read as the kind it is. */
  lemma EventTagRoundTrip(e: Event)
    ensures KindFromTag(EventTag(e)) == Some(KindOf(e))
  {
  }

  /** A subscriber can tell the kind of an event from its tag alone. */
  lemma EventTagDeterminesKind(e1: Event, e2: Event)
    ensures EventTag(e1) == EventTag(e2) <==>
              (e1.KeyDown? == e2.KeyDown? && e1.MouseMotion? == e2.MouseMotion?
               && e1.MouseWheel? == e2.MouseWheel? && e1.MouseButtonDown? == e2.MouseButtonDown?)
  {
  }

  /** The KeyDown message for a named key. */
  method KeyDownEvent(key: string, m: KeyMods, repeat: bool) returns (e: Event)
    ensures e.KeyDown? && e.key == key && e.repeat == repeat
    ensures ListsModifiers(m, e.mods)
    ensures EventTag(e) == 0
  {
    var mods := ModifierNames(m);
    e := KeyDown(key, mods, repeat);
  }
}
