/** The open-state bookkeeping `toggle` keeps on class lists: a buddy opened
    by a controller carries the open class and an `openedby:<id>` class, and
    loses the open class only when no `openedby:` class is left. */
module Openers {
  import opened Common

  /** The class recording that the element with this id opened a buddy. */
  function Tag(id: string): string { "openedby:" + id }

  /** A class the `/openedby:/g` count sees. */
  predicate IsOpener(c: string) { Contains(c, "openedby:") }

  function OpenersOf(cls: set<string>): set<string>
  {
    set c | c in cls && IsOpener(c)
  }

  /** `buddy.classList.add(openClass, 'openedby:' + id)`. */
  function Open(cls: set<string>, openClass: string, id: string): (r: set<string>)
    ensures openClass in r && Tag(id) in r
    ensures forall c :: c != openClass && c != Tag(id) ==> (c in r <==> c in cls)
  {
    cls + {openClass, Tag(id)}
  }

  /** Remove `openedby:<id>`; then remove the open class when no opener is
      left. */
  function Close(cls: set<string>, openClass: string, id: string): (r: set<string>)
    ensures Tag(id) !in r
    ensures openClass in r ==> openClass in cls
    ensures forall c :: c != openClass && c != Tag(id) ==> (c in r <==> c in cls)
  {
    var rest := cls - {Tag(id)};
    if OpenersOf(rest) == {} then rest - {openClass} else rest
  }

  /** The buddy filter of `transitionWithGesture`: a buddy follows the drag
      of the element with this id when nothing opened it, or only that
      element did. */
  predicate FollowsGesture(cls: set<string>, id: string)
    ensures FollowsGesture(cls, id) <==> forall c :: c in cls && IsOpener(c) ==> c == Tag(id)
  {
    assert (forall c :: c in cls && IsOpener(c) ==> c == Tag(id)) ==>
             OpenersOf(cls) == {} || OpenersOf(cls) == {Tag(id)} by {
      if forall c :: c in cls && IsOpener(c) ==> c == Tag(id) {
        if Tag(id) in OpenersOf(cls) {
          assert OpenersOf(cls) == {Tag(id)};
        } else {
          assert OpenersOf(cls) == {};
        }
      }
    }
    assert forall c :: c in cls && IsOpener(c) ==> c in OpenersOf(cls);
    OpenersOf(cls) == {} || OpenersOf(cls) == {Tag(id)}
  }

  lemma TagIsOpener(id: string)
    ensures IsOpener(Tag(id))
  {
    assert "openedby:" <= Tag(id);
  }

  lemma TagInjective(a: string, b: string)
    requires a != b
    ensures Tag(a) != Tag(b)
  {
    assert Tag(a)[9..] == a && Tag(b)[9..] == b;
  }

  /** Opening records the opener and the open class; closing forgets the
      opener, and keeps the open class exactly when it was there and
      another opener is left. */
  lemma OpenCloseMeaning(cls: set<string>, openClass: string, id: string)
    requires !IsOpener(openClass)
    ensures openClass in Open(cls, openClass, id) && Tag(id) in Open(cls, openClass, id)
    ensures Tag(id) !in Close(cls, openClass, id)
    ensures openClass in Close(cls, openClass, id) <==>
              openClass in cls && exists c :: c in cls && IsOpener(c) && c != Tag(id)
    ensures forall c :: c != openClass && c != Tag(id) ==>
              (c in Close(cls, openClass, id) <==> c in cls) && (c in Open(cls, openClass, id) <==> c in cls)
  {
    TagIsOpener(id);
    var rest := cls - {Tag(id)};
    if exists c :: c in cls && IsOpener(c) && c != Tag(id) {
      var c :| c in cls && IsOpener(c) && c != Tag(id);
      assert c in OpenersOf(rest);
    }
  }

  /** Opening twice or closing twice is the same as once, so a buddy listed
      twice is handled as if it were listed once. */
  lemma OpenCloseIdempotent(cls: set<string>, openClass: string, id: string)
    ensures Open(Open(cls, openClass, id), openClass, id) == Open(cls, openClass, id)
    ensures Close(Close(cls, openClass, id), openClass, id) == Close(cls, openClass, id)
  {
    var rest := cls - {Tag(id)};
    if OpenersOf(rest) == {} {
      assert OpenersOf(rest - {openClass}) == {};
    }
  }

  /** A buddy shared by two controllers: opened by A and then by B, closing
      A leaves it open, and closing B afterwards closes it. */
  lemma SharedBuddyClosesWithLastOpener(cls: set<string>, openClass: string, a: string, b: string)
    requires a != b && !IsOpener(openClass) && OpenersOf(cls) == {}
    ensures var shared := Open(Open(cls, openClass, a), openClass, b);
            && openClass in Close(shared, openClass, a)
            && openClass !in Close(Close(shared, openClass, a), openClass, b)
            && OpenersOf(Close(Close(shared, openClass, a), openClass, b)) == {}
  {
    TagInjective(a, b);
    TagIsOpener(a);
    TagIsOpener(b);
    var shared := Open(Open(cls, openClass, a), openClass, b);
    var afterA := shared - {Tag(a)};
    assert Tag(b) in OpenersOf(afterA);
    assert Close(shared, openClass, a) == afterA;
    var afterB := afterA - {Tag(b)};
    forall c | c in afterB ensures !IsOpener(c) {
      assert c in cls || c == openClass;
      if c in cls {
        assert c !in OpenersOf(cls);
      }
    }
    assert OpenersOf(afterB) == {};
  }
}
