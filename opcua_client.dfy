/**
 * The device side of the recipe handler (src/opcua_client.py): flattening the
 * address space, reading the step array into records, coercing a stored value
 * to a node's declared type before writing it, and naming a node's type for
 * the store.
 *
 * The address space is a tree of Node values; every read the source performs
 * on a node is a field of that node. Calls that reach the device outside the
 * tree (resolving a node id, reading the declared type of a node, writing a
 * value) are the functions of a Device value.
 */
module OpcuaClient {
  import opened Wrappers
  import opened PyStr
  import opened PyValue

  /** ua.NodeClass, reduced to the two classes the code tests for. */
  datatype NodeClass = Object | Variable | OtherClass

  /** ua.VariantType; the members the code never names are OtherType. */
  datatype VariantType =
    | Null | Boolean | SByte | Byte | Int16 | UInt16 | Int32 | UInt32 | Int64 | UInt64
    | Float | Double | String | DateTime | OtherType(typeName: string)

  /** VariantType.name, as stored in the TagDataType column. */
  function TypeName(t: VariantType): string {
    match t
    case Null => "Null"
    case Boolean => "Boolean"
    case SByte => "SByte"
    case Byte => "Byte"
    case Int16 => "Int16"
    case UInt16 => "UInt16"
    case Int32 => "Int32"
    case UInt32 => "UInt32"
    case Int64 => "Int64"
    case UInt64 => "UInt64"
    case Float => "Float"
    case Double => "Double"
    case String => "String"
    case DateTime => "DateTime"
    case OtherType(name) => name
  }

  /** A string node id `ns=<index>;s=<identifier>`; Identifier is the tag name. */
  datatype NodeId = NodeId(namespace: nat, identifier: string)

  /**
   * A node of the address space with what the code reads from it: node class,
   * display name, node id, browse path (each element printed with str()),
   * value, declared variant type and children in server order.
   */
  datatype Node = Node(
    cls: NodeClass,
    displayName: string,
    nodeId: NodeId,
    path: seq<string>,
    value: Value,
    vtype: VariantType,
    children: seq<Node>)

  // ---------------------------------------------------------------------
  // get_node_children: pre-order flattening
  // ---------------------------------------------------------------------

  /** The concatenation of a sequence of sequences. */
  function Concat<T>(ss: seq<seq<T>>): seq<T> {
    if ss == [] then [] else Concat(ss[..|ss| - 1]) + ss[|ss| - 1]
  }

  /** Concatenating one more piece appends it. */
  lemma ConcatStep<T>(ss: seq<seq<T>>, i: nat)
    requires i < |ss|
    ensures Concat(ss[..i + 1]) == Concat(ss[..i]) + ss[i]
  {
    assert ss[..i + 1][..i] == ss[..i];
  }

  /** Whatever is in one of the pieces is in the concatenation. */
  lemma {:induction false} ConcatHas<T>(ss: seq<seq<T>>, k: nat, x: T)
    requires k < |ss| && x in ss[k]
    ensures x in Concat(ss)
  {
    var init := ss[..|ss| - 1];
    if k < |init| {
      assert init[k] == ss[k];
      ConcatHas(init, k, x);
    }
  }

  /** Whatever is in the concatenation is in one of the pieces. */
  lemma {:induction false} ConcatFrom<T>(ss: seq<seq<T>>, x: T) returns (k: nat)
    requires x in Concat(ss)
    ensures k < |ss| && x in ss[k]
  {
    var init := ss[..|ss| - 1];
    if x in Concat(init) {
      k := ConcatFrom(init, x);
      assert init[k] == ss[k];
    } else {
      k := |ss| - 1;
    }
  }

  /** The pre-order listings of the children of n, one per child. */
  function ChildOrders(n: Node): (r: seq<seq<Node>>)
    ensures |r| == |n.children|
    decreases n, 0
  {
    seq(|n.children|, i requires 0 <= i < |n.children| => PreOrder(n.children[i]))
  }

  /** n followed by the pre-order listing of each of its children in turn. */
  function PreOrder(n: Node): (r: seq<Node>)
    decreases n, 1
  {
    [n] + Concat(ChildOrders(n))
  }

  /**
   * get_node_children(node, nodes): appends every descendant of node to nodes
   * in pre-order; with nodes = None the list starts as [node].
   */
  method GetNodeChildren(node: Node, nodes: Option<seq<Node>>) returns (r: seq<Node>)
    ensures r == nodes.GetOr([node]) + Concat(ChildOrders(node))
    ensures nodes.None? ==> r == PreOrder(node)
    decreases node
  {
    r := nodes.GetOr([node]);
    var children := node.children;
    var i := 0;
    while i < |children|
      invariant 0 <= i <= |children|
      invariant r == nodes.GetOr([node]) + Concat(ChildOrders(node)[..i])
    {
      var child := children[i];
      ghost var before := r;
      r := r + [child];
      r := GetNodeChildren(child, Some(r));
      PreOrderStep(nodes.GetOr([node]), node, i, before, r);
      i := i + 1;
    }
    assert ChildOrders(node)[..i] == ChildOrders(node);
  }

  /** One more child of the loop in GetNodeChildren: its own listing is appended after what came before. */
  lemma PreOrderStep(start: seq<Node>, node: Node, i: nat, before: seq<Node>, after: seq<Node>)
    requires i < |node.children|
    requires before == start + Concat(ChildOrders(node)[..i])
    requires after == before + [node.children[i]] + Concat(ChildOrders(node.children[i]))
    ensures after == start + Concat(ChildOrders(node)[..i + 1])
  {
    var orders := ChildOrders(node);
    var child := node.children[i];
    assert orders[i] == [child] + Concat(ChildOrders(child));
    ConcatStep(orders, i);
    AppendAssoc(before, [child], Concat(ChildOrders(child)));
    AppendAssoc(start, Concat(orders[..i]), orders[i]);
  }

  /** Sequence concatenation is associative. */
  lemma AppendAssoc<T>(a: seq<T>, b: seq<T>, c: seq<T>)
    ensures a + b + c == a + (b + c)
  {
  }

  /** The pre-order listing starts with the node and holds exactly it and its children's listings. */
  lemma PreOrderMember(n: Node, x: Node)
    ensures PreOrder(n)[0] == n
    ensures x in PreOrder(n) <==> x == n || exists i :: 0 <= i < |n.children| && x in PreOrder(n.children[i])
  {
    var orders := ChildOrders(n);
    if x in Concat(orders) {
      var i := ConcatFrom(orders, x);
      assert x in PreOrder(n.children[i]);
    }
    if exists i :: 0 <= i < |n.children| && x in PreOrder(n.children[i]) {
      var i :| 0 <= i < |n.children| && x in PreOrder(n.children[i]);
      assert x in orders[i];
      ConcatHas(orders, i, x);
    }
  }

  /** Every node of the tree, however deep, is in the listing. */
  lemma {:induction false} PreOrderHoldsDescendant(n: Node, i: nat, x: Node)
    requires i < |n.children|
    requires x in PreOrder(n.children[i])
    ensures x in PreOrder(n)
  {
    PreOrderMember(n, x);
  }

  // ---------------------------------------------------------------------
  // get_stepdata
  // ---------------------------------------------------------------------

  /** The entry item_data keeps for one variable: "Node", "Value", "Datatype". */
  datatype Field = Field(name: string, node: NodeId, value: Value, dtype: VariantType)

  /** One step: an insertion-ordered dict from display name to Field. */
  type Record = seq<Field>

  function FieldOf(c: Node): Field {
    Field(c.displayName, c.nodeId, c.value, c.vtype)
  }

  /** The keys of a record, in insertion order. */
  function Names(r: Record): (ns: seq<string>)
    ensures |ns| == |r|
  {
    seq(|r|, k requires 0 <= k < |r| => r[k].name)
  }

  /** The array item is skipped when some element of its path contains "[0]". */
  predicate Skipped(item: Node) {
    exists k :: 0 <= k < |item.path| && Contains(item.path[k], "[0]")
  }

  /**
   * The record built from an item's children: each Variable child adds its
   * field under its display name unless that name is already present.
   */
  function ItemRecord(props: seq<Node>): Record {
    if props == [] then []
    else
      var r := ItemRecord(props[..|props| - 1]);
      var c := props[|props| - 1];
      if c.cls == Variable && c.displayName !in Names(r) then r + [FieldOf(c)] else r
  }

  /** The records of the array items, in server order. */
  function StepRecords(items: seq<Node>): seq<Record> {
    if items == [] then []
    else
      var rs := StepRecords(items[..|items| - 1]);
      var item := items[|items| - 1];
      if Skipped(item) then rs
      else
        var rec := ItemRecord(item.children);
        if rec == [] then rs else rs + [rec]
  }

  /** get_stepdata's result: the records, or None when there are none. */
  function StepData(nodeSteps: Node): Option<seq<Record>> {
    var rs := StepRecords(nodeSteps.children);
    if rs == [] then None else Some(rs)
  }

  /** get_stepdata(node_steps), reading the children of the step array. */
  method GetStepData(nodeSteps: Node) returns (r: Option<seq<Record>>)
    ensures r == StepData(nodeSteps)
  {
    var result: seq<Record> := [];
    var items := nodeSteps.children;
    var i := 0;
    while i < |items|
      invariant 0 <= i <= |items|
      invariant result == StepRecords(items[..i])
    {
      var item := items[i];
      assert items[..i + 1][..i] == items[..i];
      if Skipped(item) {
        i := i + 1;
        continue;
      }
      var props := item.children;
      var itemData: Record := [];
      var j := 0;
      while j < |props|
        invariant 0 <= j <= |props|
        invariant itemData == ItemRecord(props[..j])
      {
        var p := props[j];
        assert props[..j + 1][..j] == props[..j];
        if p.cls == Variable && p.displayName !in Names(itemData) {
          itemData := itemData + [FieldOf(p)];
        }
        j := j + 1;
      }
      assert props[..j] == props;
      if itemData != [] {
        result := result + [itemData];
      }
      i := i + 1;
    }
    assert items[..i] == items;
    if result != [] {
      return Some(result);
    }
    return None;
  }

  /** props[j] is a Variable and no earlier Variable has its display name. */
  predicate FirstOfName(props: seq<Node>, j: int) {
    && 0 <= j < |props|
    && props[j].cls == Variable
    && forall i :: 0 <= i < j && props[i].cls == Variable ==> props[i].displayName != props[j].displayName
  }

  lemma NamesAppend(r: Record, f: Field)
    ensures Names(r + [f]) == Names(r) + [f.name]
  {
  }

  /**
   * A record holds exactly one field per display name of a Variable child,
   * the one of the first child with that name, and no name twice.
   */
  lemma {:induction false} ItemRecordFields(props: seq<Node>)
    ensures forall f :: f in ItemRecord(props) ==> exists j :: FirstOfName(props, j) && FieldOf(props[j]) == f
    ensures forall j :: FirstOfName(props, j) ==> FieldOf(props[j]) in ItemRecord(props)
    ensures forall j :: 0 <= j < |props| && props[j].cls == Variable ==> props[j].displayName in Names(ItemRecord(props))
    ensures forall a, b :: 0 <= a < b < |ItemRecord(props)| ==> ItemRecord(props)[a].name != ItemRecord(props)[b].name
    decreases |props|, 0
  {
    if props != [] {
      var init := props[..|props| - 1];
      var c := props[|props| - 1];
      var r0 := ItemRecord(init);
      var r := ItemRecord(props);
      ItemRecordFields(init);
      forall j | FirstOfName(init, j) ensures FirstOfName(props, j) {
      }
      forall f | f in r ensures exists j :: FirstOfName(props, j) && FieldOf(props[j]) == f {
        if f in r0 {
          var j :| FirstOfName(init, j) && FieldOf(init[j]) == f;
          assert FirstOfName(props, j) && FieldOf(props[j]) == f;
        } else {
          assert f == FieldOf(c);
          var last := |props| - 1;
          forall i | 0 <= i < last && props[i].cls == Variable ensures props[i].displayName != c.displayName {
            assert init[i] == props[i];
          }
          assert FirstOfName(props, last);
        }
      }
      forall j | FirstOfName(props, j) ensures FieldOf(props[j]) in r {
        if j < |props| - 1 {
          assert FirstOfName(init, j);
        } else if c.displayName in Names(r0) {
          var j0 := NamedVariable(init, c.displayName);
          assert false;
        }
      }
      forall j | 0 <= j < |props| && props[j].cls == Variable ensures props[j].displayName in Names(r) {
        if j < |props| - 1 {
          assert init[j] == props[j];
        }
        if r != r0 {
          NamesAppend(r0, FieldOf(c));
        }
      }
      if r != r0 {
        forall a | 0 <= a < |r0| ensures r0[a].name != c.displayName {
          assert Names(r0)[a] == r0[a].name;
        }
      }
    }
  }

  /** A name in the record is the display name of some Variable child. */
  lemma NamedVariable(props: seq<Node>, name: string) returns (j: nat)
    requires name in Names(ItemRecord(props))
    ensures j < |props| && props[j].cls == Variable && props[j].displayName == name
    decreases |props|, 1
  {
    var r := ItemRecord(props);
    ItemRecordFields(props);
    var k :| 0 <= k < |r| && Names(r)[k] == name;
    assert r[k] in r;
    j :| FirstOfName(props, j) && FieldOf(props[j]) == r[k];
  }

  /** An item yields an empty record exactly when it has no Variable child. */
  lemma ItemRecordEmpty(props: seq<Node>)
    ensures ItemRecord(props) == [] <==> forall j :: 0 <= j < |props| ==> props[j].cls != Variable
  {
    ItemRecordFields(props);
    var r := ItemRecord(props);
    if r != [] {
      assert r[0] in r;
      var j :| FirstOfName(props, j) && FieldOf(props[j]) == r[0];
    }
  }

  /** Records keep the order of the items they come from. */
  lemma {:induction false} StepRecordsAppend(a: seq<Node>, b: seq<Node>)
    ensures StepRecords(a + b) == StepRecords(a) + StepRecords(b)
    decreases |b|
  {
    if b == [] {
      assert a + b == a;
    } else {
      var init := b[..|b| - 1];
      StepRecordsAppend(a, init);
      assert (a + b)[..|a + b| - 1] == a + init;
      assert (a + b)[|a + b| - 1] == b[|b| - 1];
    }
  }

  /** A skipped item contributes nothing, wherever it stands. */
  lemma SkippedContributesNothing(a: seq<Node>, item: Node, b: seq<Node>)
    requires Skipped(item)
    ensures StepRecords(a + [item] + b) == StepRecords(a + b)
  {
    StepRecordsAppend(a + [item], b);
    StepRecordsAppend(a, [item]);
    StepRecordsAppend(a, b);
    assert [item][..0] == [];
  }

  /** No record is empty. */
  lemma {:induction false} StepRecordsNonEmpty(items: seq<Node>)
    ensures forall k :: 0 <= k < |StepRecords(items)| ==> StepRecords(items)[k] != []
  {
    if items != [] {
      StepRecordsNonEmpty(items[..|items| - 1]);
    }
  }

  /**
   * get_stepdata gives None, never an empty list, exactly when every item is
   * skipped or has no Variable child.
   */
  lemma {:induction false} StepDataNone(items: seq<Node>)
    ensures StepRecords(items) == [] <==>
      forall k :: 0 <= k < |items| ==> Skipped(items[k]) || ItemRecord(items[k].children) == []
  {
    if items != [] {
      var init := items[..|items| - 1];
      StepDataNone(init);
      StepRecordsAppend(init, [items[|items| - 1]]);
      assert [items[|items| - 1]][..0] == [];
      assert init + [items[|items| - 1]] == items;
      if forall k :: 0 <= k < |items| ==> Skipped(items[k]) || ItemRecord(items[k].children) == [] {
        forall k | 0 <= k < |init| ensures Skipped(init[k]) || ItemRecord(init[k].children) == [] {
          assert init[k] == items[k];
        }
      }
    }
  }

  lemma StepDataNoneIff(nodeSteps: Node)
    ensures StepData(nodeSteps).None? <==>
      forall k :: 0 <= k < |nodeSteps.children| ==>
        Skipped(nodeSteps.children[k]) || forall j :: 0 <= j < |nodeSteps.children[k].children| ==> nodeSteps.children[k].children[j].cls != Variable
  {
    StepDataNone(nodeSteps.children);
    forall k | 0 <= k < |nodeSteps.children| {
      ItemRecordEmpty(nodeSteps.children[k].children);
    }
  }

  // ---------------------------------------------------------------------
  // write_tag
  // ---------------------------------------------------------------------

  /**
   * What write_tag needs from the device besides the value: whether
   * ua.NodeId.from_string and client.get_node accept the tag name, the
   * declared type read_data_type_as_variant_type reports (None when the read
   * raises), and whether write_value succeeds for a staged value.
   */
  datatype Device = Device(
    resolves: string -> bool,
    dataType: string -> Option<VariantType>,
    accepts: (string, Value, VariantType) -> bool)

  /** Python's float(v) on a str or an int: the repr of the float, or None where it raises. */
  type FloatParser = Value -> Option<string>

  /** The conversion functions of conversion_map. */
  datatype Conversion = BoolConversion | FloatConversion | IntConversion

  /** conversion_map.get(data_type). */
  function ConversionFor(t: VariantType): (c: Option<Conversion>)
    ensures c == Some(BoolConversion) <==> t == Boolean
    ensures c == Some(FloatConversion) <==> t == Float
    ensures c == Some(IntConversion) <==> t in {Int16, Int32, Int64, UInt16, UInt32, UInt64}
  {
    match t
    case Boolean => Some(BoolConversion)
    case Float => Some(FloatConversion)
    case Int16 => Some(IntConversion)
    case Int32 => Some(IntConversion)
    case Int64 => Some(IntConversion)
    case UInt16 => Some(IntConversion)
    case UInt32 => Some(IntConversion)
    case UInt64 => Some(IntConversion)
    case _ => None
  }

  /** to_bool: a bool passes, any str is compared with "true" after lower(), anything else raises. */
  function ToBool(v: Value): (r: Result<Value>)
    ensures r.Ok? <==> v.VBool? || v.VStr?
    ensures r.Ok? ==> r.value.VBool?
  {
    match v
    case VBool(_) => Ok(v)
    case VStr(s) => Ok(VBool(Lower(s) == "true"))
    case _ => Raised("Invalid type for conversion to bool")
  }

  /** to_int on a str or an int: int(); a bool becomes 0 or 1; a str must be an int literal. */
  function ToInt(v: Value): (r: Result<Value>)
    requires v.VStr? || IsInt(v)
    ensures r.Ok? ==> r.value.VInt?
    ensures v.VStr? ==> (r.Ok? <==> ParseInt(v.s).Some?)
  {
    match v
    case VBool(b) => Ok(VInt(if b then 1 else 0))
    case VInt(_) => Ok(v)
    case VStr(s) =>
      match ParseInt(s)
      case Some(i) => Ok(VInt(i))
      case None => Raised("invalid literal for int()")
  }

  /** The conversion function applied to a str or an int. */
  function Convert(c: Conversion, v: Value, toFloat: FloatParser): Result<Value>
    requires v.VStr? || IsInt(v)
  {
    match c
    case BoolConversion => ToBool(v)
    case IntConversion => ToInt(v)
    case FloatConversion =>
      match toFloat(v)
      case Some(repr) => Ok(VFloat(repr))
      case None => Raised("could not convert to float")
  }

  /**
   * The value write_tag wraps in a ua.DataValue for declared type t: Some
   * value, None when data_value stays None, Raised when a conversion raises.
   */
  function Stage(t: VariantType, v: Value, toFloat: FloatParser): (r: Result<Option<Value>>)
    ensures r.Ok? && r.value.Some? ==> IsNumber(r.value.value) || (t == String && r.value.value == v)
    ensures r.Raised? ==> ConversionFor(t).Some? && (v.VStr? || IsInt(v))
  {
    match ConversionFor(t)
    case Some(c) =>
      var converted := if v.VStr? || IsInt(v) then Convert(c, v, toFloat) else Ok(v);
      (match converted
       case Raised(e) => Raised(e)
       case Ok(x) => Ok(if IsNumber(x) then Some(x) else None))
    case None =>
      Ok(if t == String && v.VStr? then Some(v) else None)
  }

  const TagNotFound := "Tag not found"
  const NoCorrectValue := "Tag found but no correct tag value"
  const WriteSuccess := "Success finding tag and writing value"

  /**
   * The effect of write_tag: its (result, fault) pair, the value and type
   * handed to write_value if any, and whether the client was disconnected.
   */
  datatype WriteOutcome = WriteOutcome(
    result: string,
    fault: bool,
    attempted: Option<(Value, VariantType)>,
    disconnected: bool)

  /** write_tag(client, tag_name, tag_value). */
  function WriteTag(dev: Device, toFloat: FloatParser, tag: string, v: Value): (o: WriteOutcome)
    ensures o.disconnected <==> o.fault
    ensures o.result in {TagNotFound, NoCorrectValue, WriteSuccess}
    ensures o.result == WriteSuccess <==> o.attempted.Some? && !o.fault
    ensures o.attempted.Some? ==> dev.resolves(tag) && dev.dataType(tag) == Some(o.attempted.value.1)
    ensures o.result == TagNotFound ==> o.fault && o.attempted.None?
  {
    if !dev.resolves(tag) then WriteOutcome(TagNotFound, true, None, true)
    else
      match dev.dataType(tag)
      case None => WriteOutcome(TagNotFound, true, None, true)
      case Some(t) =>
        match Stage(t, v, toFloat)
        case Raised(_) => WriteOutcome(TagNotFound, true, None, true)
        case Ok(None) => WriteOutcome(NoCorrectValue, false, None, false)
        case Ok(Some(x)) =>
          if dev.accepts(tag, x, t) then WriteOutcome(WriteSuccess, false, Some((x, t)), false)
          else WriteOutcome(NoCorrectValue, true, Some((x, t)), true)
  }

  /**
   * A Boolean target takes a bool as it is and any str as lower() == "true";
   * an int that is not a bool raises and faults without writing.
   */
  lemma WriteTagBoolean(dev: Device, toFloat: FloatParser, tag: string, v: Value)
    requires dev.resolves(tag) && dev.dataType(tag) == Some(Boolean)
    ensures v.VStr? ==> WriteTag(dev, toFloat, tag, v).attempted == Some((VBool(Lower(v.s) == "true"), Boolean))
    ensures v.VBool? ==> WriteTag(dev, toFloat, tag, v).attempted == Some((v, Boolean))
    ensures v.VInt? ==> WriteTag(dev, toFloat, tag, v) == WriteOutcome(TagNotFound, true, None, true)
  {
  }

  /**
   * An integer target (Int16 to UInt64) reads a str with int(): a str that is
   * not an int literal faults with "Tag not found" and no write; any int
   * literal is written, with no range or sign check for the unsigned types.
   */
  lemma WriteTagInteger(dev: Device, toFloat: FloatParser, tag: string, s: string, t: VariantType)
    requires ConversionFor(t) == Some(IntConversion)
    requires dev.resolves(tag) && dev.dataType(tag) == Some(t)
    ensures ParseInt(s).None? ==> WriteTag(dev, toFloat, tag, VStr(s)) == WriteOutcome(TagNotFound, true, None, true)
    ensures ParseInt(s).Some? ==> WriteTag(dev, toFloat, tag, VStr(s)).attempted == Some((VInt(ParseInt(s).value), t))
  {
    assert Convert(IntConversion, VStr(s), toFloat) == ToInt(VStr(s));
  }

  /**
   * A declared type outside conversion_map that is not String, or a String
   * target given something other than a str, leaves the node unwritten with
   * no fault.
   */
  lemma WriteTagNoCorrectValue(dev: Device, toFloat: FloatParser, tag: string, v: Value)
    requires dev.resolves(tag) && dev.dataType(tag).Some?
    requires ConversionFor(dev.dataType(tag).value).None?
    requires dev.dataType(tag).value != String || !v.VStr?
    ensures WriteTag(dev, toFloat, tag, v) == WriteOutcome(NoCorrectValue, false, None, false)
  {
  }

  /** The text str() gives a bool is read back by to_bool as that bool. */
  lemma ToBoolOfStr(b: bool)
    ensures ToBool(VStr(Str(VBool(b)))) == Ok(VBool(b))
  {
    LowerBoolText(b);
  }

  /** The text str() gives an int is read back by to_int as that int. */
  lemma ToIntOfStr(i: int)
    ensures ToInt(VStr(Str(VInt(i)))) == Ok(VInt(i))
  {
    ParseIntOfStr(i);
  }

  // ---------------------------------------------------------------------
  // get_opcua_value
  // ---------------------------------------------------------------------

  /** The type get_opcua_value reports: a name it rewrote, or the VariantType left as it was. */
  datatype TypeTag = TypeText(name: string) | RawType(t: VariantType)

  /** The signed type of the same width for UInt32 and UInt64; every other type is itself. */
  function SignedFor(t: VariantType): VariantType {
    if t == UInt32 then Int32 else if t == UInt64 then Int64 else t
  }

  /**
   * The chain of ifs that rewrites the declared type: Boolean, Float, UInt16
   * and String get their own names, UInt32 and UInt64 the names of the
   * signed types, and every other type is left as it is.
   */
  function StoredType(t: VariantType): (r: TypeTag)
    ensures r.TypeText? <==> t in {Boolean, Float, UInt16, UInt32, UInt64, String}
    ensures r.TypeText? ==> r.name == TypeName(SignedFor(t))
    ensures r.RawType? ==> r.t == t
  {
    if t == Boolean then TypeText("Boolean")
    else if t == Float then TypeText("Float")
    else if t == UInt16 then TypeText("UInt16")
    else if t == UInt32 then TypeText("Int32")
    else if t == UInt64 then TypeText("Int64")
    else if t == String then TypeText("String")
    else RawType(t)
  }

  /** get_opcua_value's (flag, value, data_type) triple. */
  datatype Reading = Reading(ok: bool, value: Value, dtype: Option<TypeTag>)

  /**
   * get_opcua_value(adress, data_place), given whether the connection was
   * made and what reading the node's value and declared type gave (Raised
   * when either read, or the node id, raised).
   */
  function GetOpcuaValue(connected: bool, read: Result<(Value, VariantType)>): (r: Reading)
    ensures r.ok <==> connected && read.Ok?
    ensures r.ok ==> r.value == read.value.0 && r.dtype == Some(StoredType(read.value.1))
    ensures !r.ok ==> r.value == VNone && r.dtype == None
  {
    if !connected then Reading(false, VNone, None)
    else
      match read
      case Ok((value, t)) => Reading(true, value, Some(StoredType(t)))
      case Raised(_) => Reading(false, VNone, None)
  }
}
