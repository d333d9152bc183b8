/**
 * JSON as the token stream a streaming JSON writer emits, the writer itself,
 * and two readings of a stream used to state what a serialiser produced:
 * a check that every container is closed by the matching token, and the
 * members found directly inside the outermost object.
 */
module JsonTokens {
  import opened Common

  datatype Token =
    | StartObject
    | EndObject
    | StartArray
    | EndArray
    | PropertyName(name: string)
    | StringValue(text: string)
    | BoolValue(flag: bool)
    | Null

  /** A stateful writer that appends one token per call. */
  class JsonWriter {
    var tokens: seq<Token>

    constructor ()
      ensures tokens == []
    {
      tokens := [];
    }

    method WriteStartObject()
      modifies this
      ensures tokens == old(tokens) + [StartObject]
    {
      tokens := tokens + [StartObject];
    }

    method WriteEndObject()
      modifies this
      ensures tokens == old(tokens) + [EndObject]
    {
      tokens := tokens + [EndObject];
    }

    method WriteStartArray()
      modifies this
      ensures tokens == old(tokens) + [StartArray]
    {
      tokens := tokens + [StartArray];
    }

    method WriteEndArray()
      modifies this
      ensures tokens == old(tokens) + [EndArray]
    {
      tokens := tokens + [EndArray];
    }

    method WritePropertyName(name: string)
      modifies this
      ensures tokens == old(tokens) + [PropertyName(name)]
    {
      tokens := tokens + [PropertyName(name)];
    }

    /** `WriteValue(string)`. */
    method WriteString(text: string)
      modifies this
      ensures tokens == old(tokens) + [StringValue(text)]
    {
      tokens := tokens + [StringValue(text)];
    }

    /** `WriteValue(bool)`. */
    method WriteBool(flag: bool)
      modifies this
      ensures tokens == old(tokens) + [BoolValue(flag)]
    {
      tokens := tokens + [BoolValue(flag)];
    }

    method WriteNull()
      modifies this
      ensures tokens == old(tokens) + [Null]
    {
      tokens := tokens + [Null];
    }
  }

  // ---------------------------------------------------------------------
  // Nesting

  datatype Container = ObjectContainer | ArrayContainer

  /**
   * Reads a stream with a stack of the containers still open: `None` as soon
   * as a closing token does not match the innermost open container,
   * otherwise the containers left open at the end.
   */
  function Scan(ts: seq<Token>, open: seq<Container>): Option<seq<Container>>
    decreases |ts|
  {
    if ts == [] then Some(open)
    else
      match ts[0]
      case StartObject => Scan(ts[1..], open + [ObjectContainer])
      case StartArray => Scan(ts[1..], open + [ArrayContainer])
      case EndObject =>
        if |open| > 0 && open[|open| - 1] == ObjectContainer then Scan(ts[1..], open[..|open| - 1]) else None
      case EndArray =>
        if |open| > 0 && open[|open| - 1] == ArrayContainer then Scan(ts[1..], open[..|open| - 1]) else None
      case _ => Scan(ts[1..], open)
  }

  /** Every container the stream opens it also closes, with the matching token, innermost first. */
  predicate Balanced(ts: seq<Token>) {
    Scan(ts, []) == Some([])
  }

  /** Balanced wherever it is placed: the stream closes what it opens and never closes what it did not open. */
  ghost predicate Neutral(ts: seq<Token>) {
    forall open: seq<Container> :: Scan(ts, open) == Some(open)
  }

  predicate IsContainerToken(t: Token) {
    t.StartObject? || t.EndObject? || t.StartArray? || t.EndArray?
  }

  lemma {:induction false} ScanAppend(a: seq<Token>, b: seq<Token>, open: seq<Container>)
    ensures Scan(a + b, open) == match Scan(a, open) case None => None case Some(rest) => Scan(b, rest)
    decreases |a|
  {
    if a != [] {
      assert (a + b)[0] == a[0];
      assert (a + b)[1..] == a[1..] + b;
      match a[0]
      case StartObject => ScanAppend(a[1..], b, open + [ObjectContainer]);
      case StartArray => ScanAppend(a[1..], b, open + [ArrayContainer]);
      case EndObject => if |open| > 0 { ScanAppend(a[1..], b, open[..|open| - 1]); }
      case EndArray => if |open| > 0 { ScanAppend(a[1..], b, open[..|open| - 1]); }
      case PropertyName(_) => ScanAppend(a[1..], b, open);
      case StringValue(_) => ScanAppend(a[1..], b, open);
      case BoolValue(_) => ScanAppend(a[1..], b, open);
      case Null => ScanAppend(a[1..], b, open);
    } else {
      assert a + b == b;
    }
  }

  lemma NeutralAppend(a: seq<Token>, b: seq<Token>)
    requires Neutral(a) && Neutral(b)
    ensures Neutral(a + b)
  {
    forall open: seq<Container> ensures Scan(a + b, open) == Some(open) {
      ScanAppend(a, b, open);
    }
  }

  lemma NeutralScalars(ts: seq<Token>)
    requires forall i :: 0 <= i < |ts| ==> !IsContainerToken(ts[i])
    ensures Neutral(ts)
  {
    forall open: seq<Container> ensures Scan(ts, open) == Some(open) {
      ScalarsScan(ts, open);
    }
  }

  lemma {:induction false} ScalarsScan(ts: seq<Token>, open: seq<Container>)
    requires forall i :: 0 <= i < |ts| ==> !IsContainerToken(ts[i])
    ensures Scan(ts, open) == Some(open)
    decreases |ts|
  {
    if ts != [] {
      ScalarsScan(ts[1..], open);
    }
  }

  lemma NeutralObject(inner: seq<Token>)
    requires Neutral(inner)
    ensures Neutral([StartObject] + inner + [EndObject])
  {
    forall open: seq<Container> ensures Scan([StartObject] + inner + [EndObject], open) == Some(open) {
      ScanAppend([StartObject] + inner, [EndObject], open);
      ScanAppend([StartObject], inner, open);
      assert Scan(inner, open + [ObjectContainer]) == Some(open + [ObjectContainer]);
      assert (open + [ObjectContainer])[..|open|] == open;
    }
  }

  lemma NeutralArray(inner: seq<Token>)
    requires Neutral(inner)
    ensures Neutral([StartArray] + inner + [EndArray])
  {
    forall open: seq<Container> ensures Scan([StartArray] + inner + [EndArray], open) == Some(open) {
      ScanAppend([StartArray] + inner, [EndArray], open);
      ScanAppend([StartArray], inner, open);
      assert Scan(inner, open + [ArrayContainer]) == Some(open + [ArrayContainer]);
      assert (open + [ArrayContainer])[..|open|] == open;
    }
  }

  // ---------------------------------------------------------------------
  // Members of the outermost object

  function Delta(t: Token): int {
    if t.StartObject? || t.StartArray? then 1
    else if t.EndObject? || t.EndArray? then -1
    else 0
  }

  /** How many containers the stream leaves open (negative when it closes more than it opens). */
  function Depth(ts: seq<Token>): int
    decreases |ts|
  {
    if ts == [] then 0 else Delta(ts[0]) + Depth(ts[1..])
  }

  /**
   * The tokens met at nesting depth exactly 1, starting at depth `depth`:
   * the names and the first token of the values of the outermost object's
   * own members (its closing token left out).
   */
  function Shallow(ts: seq<Token>, depth: int): seq<Token>
    decreases |ts|
  {
    if ts == [] then []
    else
      (if depth == 1 && !ts[0].EndObject? && !ts[0].EndArray? then [ts[0]] else [])
      + Shallow(ts[1..], depth + Delta(ts[0]))
  }

  /** Pairs each member name with the token its value starts with. */
  function Pairs(ts: seq<Token>): seq<(string, Token)>
    decreases |ts|
  {
    if |ts| >= 2 && ts[0].PropertyName? then [(ts[0].name, ts[1])] + Pairs(ts[2..]) else []
  }

  /** The members of the outermost object: each name with the first token of its value, in order. */
  function TopLevelMembers(ts: seq<Token>): seq<(string, Token)> {
    Pairs(Shallow(ts, 0))
  }

  /** The first token of the value of the first top-level member called `key`. */
  function MemberValue(members: seq<(string, Token)>, key: string): Option<Token>
    decreases |members|
  {
    if members == [] then None
    else if members[0].0 == key then Some(members[0].1)
    else MemberValue(members[1..], key)
  }

  lemma {:induction false} DepthAppend(a: seq<Token>, b: seq<Token>)
    ensures Depth(a + b) == Depth(a) + Depth(b)
    decreases |a|
  {
    if a == [] {
      assert a + b == b;
    } else {
      assert (a + b)[1..] == a[1..] + b;
      DepthAppend(a[1..], b);
    }
  }

  lemma {:induction false} ShallowAppend(a: seq<Token>, b: seq<Token>, depth: int)
    ensures Shallow(a + b, depth) == Shallow(a, depth) + Shallow(b, depth + Depth(a))
    decreases |a|
  {
    if a == [] {
      assert a + b == b;
    } else {
      var head := if depth == 1 && !a[0].EndObject? && !a[0].EndArray? then [a[0]] else [];
      var next := depth + Delta(a[0]);
      assert (a + b)[0] == a[0];
      assert (a + b)[1..] == a[1..] + b;
      ShallowAppend(a[1..], b, next);
      calc {
        Shallow(a + b, depth);
        head + Shallow(a[1..] + b, next);
        head + (Shallow(a[1..], next) + Shallow(b, next + Depth(a[1..])));
        (head + Shallow(a[1..], next)) + Shallow(b, depth + Depth(a));
      }
    }
  }

  /** A stream the scan accepts changes the stack height by its depth. */
  lemma {:induction false} ScanDepth(ts: seq<Token>, open: seq<Container>)
    requires Scan(ts, open).Some?
    ensures |Scan(ts, open).value| == |open| + Depth(ts)
    decreases |ts|
  {
    if ts != [] {
      match ts[0]
      case StartObject => ScanDepth(ts[1..], open + [ObjectContainer]);
      case StartArray => ScanDepth(ts[1..], open + [ArrayContainer]);
      case EndObject => ScanDepth(ts[1..], open[..|open| - 1]);
      case EndArray => ScanDepth(ts[1..], open[..|open| - 1]);
      case PropertyName(_) => ScanDepth(ts[1..], open);
      case StringValue(_) => ScanDepth(ts[1..], open);
      case BoolValue(_) => ScanDepth(ts[1..], open);
      case Null => ScanDepth(ts[1..], open);
    }
  }

  /** A stream the scan accepts never drops below its starting depth, so from depth 2 on it shows nothing at depth 1. */
  lemma {:induction false} ScanShallow(ts: seq<Token>, open: seq<Container>, depth: int)
    requires Scan(ts, open).Some? && depth >= |open| + 2
    ensures Shallow(ts, depth) == []
    decreases |ts|
  {
    if ts != [] {
      match ts[0]
      case StartObject => ScanShallow(ts[1..], open + [ObjectContainer], depth + 1);
      case StartArray => ScanShallow(ts[1..], open + [ArrayContainer], depth + 1);
      case EndObject => ScanShallow(ts[1..], open[..|open| - 1], depth - 1);
      case EndArray => ScanShallow(ts[1..], open[..|open| - 1], depth - 1);
      case PropertyName(_) => ScanShallow(ts[1..], open, depth);
      case StringValue(_) => ScanShallow(ts[1..], open, depth);
      case BoolValue(_) => ScanShallow(ts[1..], open, depth);
      case Null => ScanShallow(ts[1..], open, depth);
    }
  }

  /** A neutral stream leaves the depth as it was and, nested at depth 2 or more, adds nothing at depth 1. */
  lemma NeutralIsDeep(ts: seq<Token>, depth: int)
    requires Neutral(ts) && depth >= 2
    ensures Depth(ts) == 0 && Shallow(ts, depth) == []
  {
    assert Scan(ts, []) == Some([]);
    ScanDepth(ts, []);
    ScanShallow(ts, [], depth);
  }

  /** A stream with no container token sits at depth 1 in full and changes no depth. */
  lemma {:induction false} ShallowScalars(ts: seq<Token>)
    requires forall i :: 0 <= i < |ts| ==> !IsContainerToken(ts[i])
    ensures Shallow(ts, 1) == ts && Depth(ts) == 0
    decreases |ts|
  {
    if ts != [] {
      ShallowScalars(ts[1..]);
      assert ts == [ts[0]] + ts[1..];
    }
  }

  /** A neutral stream closes at the depth it starts at. */
  lemma NeutralDepth(ts: seq<Token>)
    requires Neutral(ts)
    ensures Depth(ts) == 0
  {
    NeutralIsDeep(ts, 2);
  }

  /** A container met at depth 1 shows only its opening token there. */
  lemma ShallowContainer(open: Token, inner: seq<Token>, close: Token)
    requires (open, close) == (StartObject, EndObject) || (open, close) == (StartArray, EndArray)
    requires Neutral(inner)
    ensures Shallow([open] + inner + [close], 1) == [open]
    ensures Depth([open] + inner + [close]) == 0
  {
    NeutralIsDeep(inner, 2);
    ShallowAppend([open] + inner, [close], 1);
    ShallowAppend([open], inner, 1);
    DepthAppend([open] + inner, [close]);
    DepthAppend([open], inner);
  }

  /** An object seen from outside: its depth-1 tokens are those of its body. */
  lemma ShallowOfObject(inner: seq<Token>)
    requires Neutral(inner)
    ensures Shallow([StartObject] + inner + [EndObject], 0) == Shallow(inner, 1)
  {
    NeutralDepth(inner);
    ShallowAppend([StartObject] + inner, [EndObject], 0);
    ShallowAppend([StartObject], inner, 0);
    DepthAppend([StartObject], inner);
  }

  /** The tokens of a list of members, each a name followed by the first token of its value. */
  function Flatten(members: seq<(string, Token)>): (ts: seq<Token>)
    ensures |ts| == 2 * |members|
    decreases |members|
  {
    if members == [] then [] else [PropertyName(members[0].0), members[0].1] + Flatten(members[1..])
  }

  lemma {:induction false} FlattenAppend(a: seq<(string, Token)>, b: seq<(string, Token)>)
    ensures Flatten(a + b) == Flatten(a) + Flatten(b)
    decreases |a|
  {
    if a == [] {
      assert a + b == b;
    } else {
      assert (a + b)[0] == a[0];
      assert (a + b)[1..] == a[1..] + b;
      FlattenAppend(a[1..], b);
    }
  }

  /** Pairing up a flattened member list gives the list back. */
  lemma {:induction false} PairsFlatten(members: seq<(string, Token)>)
    ensures Pairs(Flatten(members)) == members
    decreases |members|
  {
    if members != [] {
      var ts := Flatten(members);
      assert ts[2..] == Flatten(members[1..]);
      PairsFlatten(members[1..]);
    }
  }
}
