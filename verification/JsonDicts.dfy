/** Documents as Python holds them: an object is a dict, where the last of
    several equal keys wins. */
module JsonDicts {
  import opened Wrappers
  import opened JsonRepair
  import opened JsonMeaning
  import opened JsonGaps

  datatype Py = PStr(text: Text) | PScalar(spelling: string) | PList(items: seq<Py>) | PDict(entries: map<Text, Py>)

  function ToPy(v: Value): Py {
    match v
    case VString(x) => PStr(x)
    case VBare(t) => PScalar(t)
    case VArray(vs) => PList(ToList(vs))
    case VObject(fs) => PDict(ToDict(fs))
  }

  function ToList(vs: Values): seq<Py> {
    match vs
    case VNil => []
    case VCons(v, rest) => [ToPy(v)] + ToList(rest)
  }

  function ToDict(fs: Fields): map<Text, Py> {
    match fs
    case FNil => map[]
    case FCons(name, v, rest) =>
      var later := ToDict(rest);
      if name in later then later else later[name := ToPy(v)]
  }

  /** json.loads. */
  function PyLoads(c: Codec, text: string): Option<Py> {
    match Loads(c, text)
    case None => None
    case Some(v) => Some(ToPy(v))
  }

  /** Only strings at the leaves of what Python holds. */
  predicate Strings(p: Py) {
    match p
    case PStr(_) => true
    case PScalar(_) => false
    case PList(items) => forall x | x in items :: Strings(x)
    case PDict(entries) => forall k | k in entries :: Strings(entries[k])
  }

  function Names(fs: Fields): set<Text> {
    match fs
    case FNil => {}
    case FCons(name, _, rest) => {name} + Names(rest)
  }

  /** No object repeats a key. */
  predicate NoRepeats(v: Value) {
    match v
    case VString(_) => true
    case VBare(_) => true
    case VArray(vs) => ItemsNoRepeats(vs)
    case VObject(fs) => FieldsNoRepeats(fs)
  }

  predicate ItemsNoRepeats(vs: Values) {
    match vs
    case VNil => true
    case VCons(v, rest) => NoRepeats(v) && ItemsNoRepeats(rest)
  }

  predicate FieldsNoRepeats(fs: Fields) {
    match fs
    case FNil => true
    case FCons(name, v, rest) => name !in Names(rest) && NoRepeats(v) && FieldsNoRepeats(rest)
  }

  /** A dict holds strings only if every member does; only then, too, if no
      key is repeated. */
  lemma {:induction false} StringsOfValue(v: Value)
    ensures StringOnly(v) ==> Strings(ToPy(v))
    ensures NoRepeats(v) && Strings(ToPy(v)) ==> StringOnly(v)
    decreases v
  {
    match v {
      case VString(_) =>
      case VBare(_) =>
      case VArray(vs) => StringsOfItems(vs);
      case VObject(fs) => StringsOfFields(fs);
    }
  }

  lemma {:induction false} StringsOfItems(vs: Values)
    ensures AllStringOnly(vs) ==> forall x | x in ToList(vs) :: Strings(x)
    ensures ItemsNoRepeats(vs) && (forall x | x in ToList(vs) :: Strings(x)) ==> AllStringOnly(vs)
    decreases vs
  {
    match vs {
      case VNil =>
      case VCons(v, rest) =>
        StringsOfValue(v);
        StringsOfItems(rest);
        assert forall x :: x in ToList(vs) <==> x == ToPy(v) || x in ToList(rest);
    }
  }

  lemma {:induction false} StringsOfFields(fs: Fields)
    ensures ToDict(fs).Keys == Names(fs)
    ensures FieldsStringOnly(fs) ==> forall k | k in ToDict(fs) :: Strings(ToDict(fs)[k])
    ensures FieldsNoRepeats(fs) && (forall k | k in ToDict(fs) :: Strings(ToDict(fs)[k])) ==> FieldsStringOnly(fs)
    decreases fs
  {
    match fs {
      case FNil =>
      case FCons(name, v, rest) =>
        StringsOfValue(v);
        StringsOfFields(rest);
        if FieldsNoRepeats(fs) {
          assert forall k | k in ToDict(rest) :: k != name && ToDict(fs)[k] == ToDict(rest)[k];
          assert ToDict(fs)[name] == ToPy(v);
        }
    }
  }

  ghost predicate Preserved(c: Codec, text: string) {
    RepairText(c, text).Some? && PyLoads(c, RepairText(c, text).value) == PyLoads(c, text)
  }

  /** Erasing changes nothing Python sees, if no scalar is left in what it
      loads. */
  lemma {:induction false} EraseUnseen(v: Value)
    requires Strings(ToPy(v))
    ensures ToPy(Erase(v)) == ToPy(v)
    decreases v
  {
    match v {
      case VString(_) =>
      case VArray(vs) =>
        if LoneScalar(vs) {
          assert ToPy(vs.first) in ToList(vs);
        } else {
          EraseUnseenItems(vs);
        }
      case VObject(fs) =>
        EraseUnseenFields(fs);
    }
  }

  lemma {:induction false} EraseUnseenItems(vs: Values)
    requires forall x | x in ToList(vs) :: Strings(x)
    ensures ToList(EraseValues(vs)) == ToList(vs)
    decreases vs
  {
    match vs {
      case VNil =>
      case VCons(v, rest) =>
        assert ToList(vs)[0] == ToPy(v) && ToList(vs)[1..] == ToList(rest);
        EraseUnseen(v);
        EraseUnseenItems(rest);
    }
  }

  lemma {:induction false} EraseUnseenFields(fs: Fields)
    requires forall k | k in ToDict(fs) :: Strings(ToDict(fs)[k])
    ensures ToDict(EraseFields(fs)) == ToDict(fs)
    decreases fs
  {
    match fs {
      case FNil =>
      case FCons(name, v, rest) =>
        assert forall k | k in ToDict(rest) :: k in ToDict(fs) && ToDict(fs)[k] == ToDict(rest)[k];
        EraseUnseenFields(rest);
        if name !in ToDict(rest) {
          assert ToDict(fs)[name] == ToPy(v);
          EraseUnseen(v);
        }
    }
  }

  /** Where no object repeats a key, lone scalars are seen. */
  lemma StringsStringOnly(v: Value)
    ensures NoRepeats(v) ==> (Lone(v) && Strings(ToPy(v)) <==> StringOnly(v))
  {
    StringsOfValue(v);
    if StringOnly(v) {
      StringOnlyLone(v);
    }
  }

  lemma {:induction false} StringOnlyLone(v: Value)
    requires StringOnly(v)
    ensures Lone(v) && Erase(v) == v
    decreases v
  {
    match v {
      case VString(_) =>
      case VArray(vs) => StringOnlyLoneItems(vs);
      case VObject(fs) => StringOnlyLoneFields(fs);
    }
  }

  lemma {:induction false} StringOnlyLoneItems(vs: Values)
    requires AllStringOnly(vs)
    ensures LoneValues(vs) && EraseValues(vs) == vs
    decreases vs
  {
    match vs {
      case VNil =>
      case VCons(v, rest) =>
        StringOnlyLone(v);
        StringOnlyLoneItems(rest);
    }
  }

  lemma {:induction false} StringOnlyLoneFields(fs: Fields)
    requires FieldsStringOnly(fs)
    ensures LoneFields(fs) && EraseFields(fs) == fs
    decreases fs
  {
    match fs {
      case FNil =>
      case FCons(_, v, rest) =>
        StringOnlyLone(v);
        StringOnlyLoneFields(rest);
    }
  }

  /** Repair in Python's terms, where a later member overwrites an earlier one
      of the same key: the repaired text loads to the same value exactly when
      every number, true, false and null stands alone in an array and none of
      them is left in what Python loads. Where no object repeats a key this
      says that there are none at all. */
  lemma PreservedIff(c: Codec, text: string)
    requires Sound(c) && Loads(c, text).Some?
    ensures var v := Loads(c, text).value;
            (Preserved(c, text) <==> Lone(v) && Strings(ToPy(v))) &&
            (NoRepeats(v) ==> (Preserved(c, text) <==> StringOnly(v)))
  {
    var v := Loads(c, text).value;
    RepairedLoadsIff(c, text);
    StringsStringOnly(v);
    if Preserved(c, text) {
      RepairedIsStringOnly(c, text);
      StringsOfValue(Loads(c, RepairText(c, text).value).value);
    } else if Strings(ToPy(v)) {
      EraseUnseen(v);
    }
  }
}
