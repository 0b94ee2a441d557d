/** The canonical printer with its exceptions (src/actl/domain/audit/canonical.py).

`_encode` raises part-way, wherever it meets a NaN, an infinity or a value of
another type.  This is that recursion; where it returns, it returns the text of the
printer that CanonicalJson is about.
*/
module CanonicalRaises {
  import opened Digests
  import opened CanonicalNumber
  import opened CanonicalJson

  /** A value as Python can hold it: floats are floats, keys of a map differ. */
  predicate IsValue(v: Json) {
    match v
    case Number(x) => ValidFloat(x)
    case Arr(items) => forall i :: 0 <= i < |items| ==> IsValue(items[i])
    case Obj(members) => UniqueKeys(members) && forall i :: 0 <= i < |members| ==> IsValue(members[i].value)
    case _ => true
  }

  ghost predicate ItemsInside(context: Json, items: seq<Json>) {
    forall i :: 0 <= i < |items| ==> items[i] < context && IsValue(items[i])
  }

  ghost predicate MembersInside(context: Json, members: seq<Member>) {
    forall i :: 0 <= i < |members| ==> members[i].value < context && IsValue(members[i].value)
  }

  lemma SortedInside(context: Json, members: seq<Member>)
    requires MembersInside(context, members)
    ensures MembersInside(context, SortMembers(members))
  {
    forall i | 0 <= i < |SortMembers(members)|
      ensures SortMembers(members)[i].value < context && IsValue(SortMembers(members)[i].value)
    {
      assert SortMembers(members)[i] in members;
    }
  }

  /** A part in brackets, unless it raised. */
  function Wrapped(open: string, body: Result<string>, close: string): Result<string> {
    match body
    case Ok(text) => Ok(open + (text + close))
    case Err(error) => Err(error)
  }

  /** Two parts one after the other; the first to raise decides. */
  function Both(first: Result<string>, second: Result<string>): Result<string> {
    match (first, second)
    case (Ok(a), Ok(b)) => Ok(a + ("," + b))
    case (Err(error), _) => Err(error)
    case (_, Err(error)) => Err(error)
  }

  /** `jcs` and `_encode` */
  function Jcs(v: Json): Result<string>
    requires IsValue(v)
    decreases v
  {
    match v
    case Null => Ok("null")
    case Bool(b) => Ok(if b then "true" else "false")
    case Str(s) => Ok(QuoteString(s))
    case Int(i) => Ok(IntText(i))
    case Number(x) => EncodeNumber(x)
    case Obj(members) => SortedInside(v, members); Wrapped("{", JcsMembers(v, SortMembers(members)), "}")
    case Arr(items) => Wrapped("[", JcsItems(v, items), "]")
    case Unserialisable => Err("TypeError")
  }

  function JcsItems(context: Json, items: seq<Json>): Result<string>
    requires ItemsInside(context, items)
    decreases context, |items|
  {
    if items == [] then Ok("")
    else if |items| == 1 then Jcs(items[0])
    else Both(Jcs(items[0]), JcsItems(context, items[1..]))
  }

  function JcsMembers(context: Json, members: seq<Member>): Result<string>
    requires MembersInside(context, members)
    decreases context, |members|
  {
    if members == [] then Ok("")
    else
      var first := Keyed(members[0].key, Jcs(members[0].value));
      if |members| == 1 then first else Both(first, JcsMembers(context, members[1..]))
  }

  /** A member, unless its value raised. */
  function Keyed(key: string, value: Result<string>): Result<string> {
    match value
    case Ok(text) => Ok(QuoteString(key) + (":" + text))
    case Err(error) => Err(error)
  }

  /** Somewhere inside there is a NaN, an infinity or a value of another type. */
  ghost predicate Offends(v: Json) {
    match v
    case Number(x) => x.NotANumber? || x.Infinite?
    case Arr(items) => exists i :: 0 <= i < |items| && Offends(items[i])
    case Obj(members) => exists i :: 0 <= i < |members| && Offends(members[i].value)
    case Unserialisable => true
    case _ => false
  }

  /** What the recursion returns is what the printer prints. */
  ghost predicate Prints(r: Result<string>, v: Json) {
    if r.Ok? then Encodable(v) && r.value == Encode(v) else Offends(v)
  }

  lemma {:induction false} EncodableNeverOffends(v: Json)
    requires Encodable(v)
    ensures !Offends(v)
  {
    match v
    case Arr(items) => forall i | 0 <= i < |items| ensures !Offends(items[i]) { EncodableNeverOffends(items[i]); }
    case Obj(members) =>
      forall i | 0 <= i < |members| ensures !Offends(members[i].value) { EncodableNeverOffends(members[i].value); }
    case _ =>
  }

  lemma {:induction false} ItemsPrint(context: Json, items: seq<Json>)
    requires ItemsInside(context, items)
    ensures JcsItems(context, items).Err? ==> exists i :: 0 <= i < |items| && Offends(items[i])
    ensures JcsItems(context, items).Ok? ==>
      ItemsBelow(context, items) && JcsItems(context, items).value == EncodeItems(context, items)
    decreases context, |items|
  {
    if items != [] {
      JcsPrints(items[0]);
      var rest := items[1..];
      ItemsPrint(context, rest);
      assert forall i :: 0 <= i < |rest| ==> rest[i] == items[i + 1];
      if JcsItems(context, items).Ok? {
        forall i | 0 <= i < |items| ensures items[i] < context && Encodable(items[i]) {
          assert i > 0 ==> items[i] == rest[i - 1];
        }
      }
    }
  }

  lemma {:induction false} MembersPrint(context: Json, members: seq<Member>)
    requires MembersInside(context, members)
    ensures JcsMembers(context, members).Err? ==> exists i :: 0 <= i < |members| && Offends(members[i].value)
    ensures JcsMembers(context, members).Ok? ==>
      MembersBelow(context, members) && JcsMembers(context, members).value == EncodeMembers(context, members)
    decreases context, |members|
  {
    if members != [] {
      JcsPrints(members[0].value);
      var rest := members[1..];
      MembersPrint(context, rest);
      assert forall i :: 0 <= i < |rest| ==> rest[i] == members[i + 1];
      if JcsMembers(context, members).Ok? {
        forall i | 0 <= i < |members| ensures members[i].value < context && Encodable(members[i].value) {
          assert i > 0 ==> members[i] == rest[i - 1];
        }
      }
    }
  }

  lemma {:induction false} JcsPrints(v: Json)
    requires IsValue(v)
    ensures Prints(Jcs(v), v)
    decreases v
  {
    match v
    case Arr(items) => ItemsPrint(v, items);
    case Obj(members) => ObjectPrints(v, members);
    case _ =>
  }

  lemma {:induction false} ObjectPrints(v: Json, members: seq<Member>)
    requires v == Obj(members) && IsValue(v)
    ensures Prints(Jcs(v), v)
    decreases v, |SortMembers(members)| + 1
  {
    var sorted := SortMembers(members);
    SortedInside(v, members);
    MembersPrint(v, sorted);
    if Jcs(v).Ok? {
      forall i | 0 <= i < |members| ensures Encodable(members[i].value) {
        assert members[i] in sorted;
        var j :| 0 <= j < |sorted| && sorted[j] == members[i];
      }
    } else {
      var i :| 0 <= i < |sorted| && Offends(sorted[i].value);
      assert sorted[i] in members;
    }
  }

  /** `jcs` raises exactly on values with a NaN, an infinity or a value of another type
      at any depth, and what it returns otherwise reads back whole. */
  lemma JcsRaises(v: Json)
    requires IsValue(v)
    ensures Jcs(v).Err? <==> Offends(v)
    ensures Jcs(v).Ok? ==> Encodable(v) && Jcs(v).value == Encode(v) && ReadValue(Jcs(v).value) == Some((Canon(v), ""))
  {
    JcsPrints(v);
    if Encodable(v) {
      EncodableNeverOffends(v);
      ValueRoundTrip(v, "");
      assert Encode(v) + "" == Encode(v);
    }
  }
}
