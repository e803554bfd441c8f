/** Vocabulary shared by the models: identifiers, optional values, request outcomes
    and the largest element of a finite set of integers. */
module Common {

  /** An opaque row identifier. */
  type Id = nat

  datatype Option<+T> = None | Some(value: T)

  /** The outcome of a request: a value, or the HTTP status of the error that was thrown
      (the enclosing transaction is then rolled back). */
  datatype Result<+T> = Ok(value: T) | Err(status: nat)

  /** The white space that `trim` removes. */
  predicate IsSpace(c: char) {
    c in {' ', '\t', '\n', '\r', '\U{000b}', '\U{000c}', '\U{00a0}', '\U{1680}', '\U{2028}', '\U{2029}',
          '\U{202f}', '\U{205f}', '\U{3000}', '\U{feff}'} || '\U{2000}' <= c <= '\U{200a}'
  }

  function TrimStart(s: string): string {
    if s != "" && IsSpace(s[0]) then TrimStart(s[1..]) else s
  }

  function TrimEnd(s: string): string {
    if s != "" && IsSpace(s[|s| - 1]) then TrimEnd(s[..|s| - 1]) else s
  }

  function Trim(s: string): string {
    TrimEnd(TrimStart(s))
  }

  function Elements(ids: seq<Id>): set<Id> {
    set id | id in ids
  }

  predicate NoDuplicates(ids: seq<Id>) {
    forall i, j | 0 <= i < j < |ids| :: ids[i] != ids[j]
  }

  lemma HasElement(s: set<int>)
    ensures s == {} || exists y :: y in s
  {
    if forall y :: y !in s {
      assert s == {};
    }
  }

  /** The rows of a query in some order. */
  method Enumerate(ids: set<Id>) returns (order: seq<Id>)
    ensures NoDuplicates(order) && Elements(order) == ids
  {
    order := [];
    var todo := ids;
    while todo != {}
      invariant NoDuplicates(order) && Elements(order) + todo == ids && Elements(order) !! todo
      decreases |todo|
    {
      HasElement(todo);
      var id :| id in todo;
      assert Elements(order + [id]) == Elements(order) + {id};
      assert forall i | 0 <= i < |order| :: order[i] in Elements(order);
      order, todo := order + [id], todo - {id};
    }
  }

  lemma {:induction false} ElementCount(ids: seq<Id>)
    requires NoDuplicates(ids)
    ensures |Elements(ids)| == |ids|
  {
    if ids != [] {
      var n := |ids| - 1;
      ElementCount(ids[..n]);
      assert ids[n] !in Elements(ids[..n]);
      assert Elements(ids) == Elements(ids[..n]) + {ids[n]};
    }
  }

  lemma SubsetSameSize(a: set<Id>, b: set<Id>)
    requires a <= b && |a| == |b|
    ensures a == b
  {
    assert b == a + (b - a);
    assert |b| == |a| + |b - a|;
  }

  ghost predicate IsMax(s: set<int>, m: int) {
    m in s && forall x | x in s :: x <= m
  }

  lemma MaxOfTwo(s: set<int>, y: int, m: int)
    requires y in s && if s - {y} == {} then m == y else IsMax(s - {y}, m)
    ensures IsMax(s, if y <= m then m else y)
  {
    assert forall x | x in s && x != y :: x in s - {y};
  }

  lemma {:induction false} MaxExists(s: set<int>)
    requires s != {}
    ensures exists m :: IsMax(s, m)
  {
    hide IsMax;
    HasElement(s);
    var y :| y in s;
    var m := y;
    if s - {y} != {} {
      MaxExists(s - {y});
      m :| IsMax(s - {y}, m);
    }
    MaxOfTwo(s, y, m);
  }

  /** The largest element of a non-empty set. */
  function MaxOf(s: set<int>): (m: int)
    requires s != {}
    ensures m in s
    ensures forall x | x in s :: x <= m
  {
    MaxExists(s);
    var m :| m in s && forall x | x in s :: x <= m;
    m
  }

  lemma MinExists(s: set<int>)
    requires s != {}
    ensures exists m :: m in s && forall x | x in s :: m <= x
  {
    var neg := set x | x in s :: -x;
    HasElement(s);
    var y :| y in s;
    assert -y in neg;
    var m := MaxOf(neg);
    assert -m in s && forall x | x in s :: -m <= x by {
      forall x | x in s ensures -m <= x { assert -x in neg; }
    }
  }

  /** The smallest element of a non-empty set. */
  function MinOf(s: set<int>): (m: int)
    requires s != {}
    ensures m in s
    ensures forall x | x in s :: m <= x
  {
    MinExists(s);
    var m :| m in s && forall x | x in s :: m <= x;
    m
  }
}
