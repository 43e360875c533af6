/**
 * The card record exchanged with the native engine and `createCardData`,
 * which builds one from a partial record by filling every absent field with
 * zero and an absent `setcode` with sixteen zeros.
 *
 * A host number is an `int`. The host field `type` is a Dafny keyword and is
 * called `cardType` here; every other field keeps its host name.
 */
module CardStruct {
  import opened Wrappers

  /** The native field types of the struct declaration. */
  datatype FieldType = UInt32 | Int32 | UInt16Array(length: nat)

  /** Field names and types in declaration order: the marshalled layout. */
  const CardDataLayout: seq<(string, FieldType)> := [
    ("code", UInt32),
    ("alias", UInt32),
    ("setcode", UInt16Array(16)),
    ("type", UInt32),
    ("level", UInt32),
    ("attribute", UInt32),
    ("race", UInt32),
    ("attack", Int32),
    ("defense", Int32),
    ("lscale", UInt32),
    ("rscale", UInt32),
    ("link_marker", UInt32)
  ]

  const SetcodeLength: nat := 16

  /** The complete record. */
  datatype CardData = CardData(
    code: int,
    alias: int,
    setcode: seq<int>,
    cardType: int,
    level: int,
    attribute: int,
    race: int,
    attack: int,
    defense: int,
    lscale: int,
    rscale: int,
    link_marker: int)

  /** The input of `createCardData`: any field may be absent. */
  datatype PartialCardData = PartialCardData(
    code: Option<int>,
    alias: Option<int>,
    setcode: Option<seq<int>>,
    cardType: Option<int>,
    level: Option<int>,
    attribute: Option<int>,
    race: Option<int>,
    attack: Option<int>,
    defense: Option<int>,
    lscale: Option<int>,
    rscale: Option<int>,
    link_marker: Option<int>)

  /** The argument `createCardData` uses when it is called with none: `{}`. */
  const NoFields := PartialCardData(None, None, None, None, None, None, None, None, None, None, None, None)

  /** A field's value, seen independently of which field it is. */
  datatype FieldValue = Scalar(n: int) | Array(items: seq<int>)

  /** The record's fields in declaration order. */
  function Fields(c: CardData): (fs: seq<FieldValue>)
    ensures |fs| == |CardDataLayout|
    ensures forall i :: 0 <= i < |fs| ==> (fs[i].Array? <==> CardDataLayout[i].1.UInt16Array?)
  {
    [Scalar(c.code), Scalar(c.alias), Array(c.setcode), Scalar(c.cardType),
     Scalar(c.level), Scalar(c.attribute), Scalar(c.race), Scalar(c.attack),
     Scalar(c.defense), Scalar(c.lscale), Scalar(c.rscale), Scalar(c.link_marker)]
  }

  /** The partial record's fields in declaration order. */
  function PartialFields(p: PartialCardData): (fs: seq<Option<FieldValue>>)
    ensures |fs| == |CardDataLayout|
  {
    [Lift(p.code), Lift(p.alias), LiftArray(p.setcode), Lift(p.cardType),
     Lift(p.level), Lift(p.attribute), Lift(p.race), Lift(p.attack),
     Lift(p.defense), Lift(p.lscale), Lift(p.rscale), Lift(p.link_marker)]
  }

  function Lift(o: Option<int>): Option<FieldValue> {
    match o
    case Some(n) => Some(Scalar(n))
    case None => None
  }

  function LiftArray(o: Option<seq<int>>): Option<FieldValue> {
    match o
    case Some(s) => Some(Array(s))
    case None => None
  }

  /** The zero value of a field type: 0, or an array of zeros. */
  function Zero(t: FieldType): FieldValue {
    match t
    case UInt16Array(n) => Array(seq(n, _ => 0))
    case _ => Scalar(0)
  }

  /**
   * Reference definition of the defaulting rule, field by field: the host's
   * `??` keeps every present value, 0 included, and takes the zero value of
   * the field's type only for an absent one.
   */
  function Resolve(t: FieldType, given: Option<FieldValue>): FieldValue {
    given.GetOr(Zero(t))
  }

  /** Whether a value fits a native field type. */
  predicate Fits(t: FieldType, v: FieldValue) {
    match t
    case UInt32 => v.Scalar? && 0 <= v.n < 0x1_0000_0000
    case Int32 => v.Scalar? && -0x8000_0000 <= v.n < 0x8000_0000
    case UInt16Array(len) =>
      v.Array? && |v.items| == len && forall i :: 0 <= i < len ==> 0 <= v.items[i] < 0x1_0000
  }

  /** Whether every field of the record fits its declared native type. */
  predicate Conforms(c: CardData) {
    forall i :: 0 <= i < |CardDataLayout| ==> Fits(CardDataLayout[i].1, Fields(c)[i])
  }

  /** `createCardData(data)`. */
  function CreateCardData(data: PartialCardData): (c: CardData)
    ensures |c.setcode| == SetcodeLength <==> data.setcode.None? || |data.setcode.value| == SetcodeLength
  {
    CardData(
      data.code.GetOr(0),
      data.alias.GetOr(0),
      data.setcode.GetOr(seq(SetcodeLength, _ => 0)),
      data.cardType.GetOr(0),
      data.level.GetOr(0),
      data.attribute.GetOr(0),
      data.race.GetOr(0),
      data.attack.GetOr(0),
      data.defense.GetOr(0),
      data.lscale.GetOr(0),
      data.rscale.GetOr(0),
      data.link_marker.GetOr(0))
  }

  // ---------------------------------------------------------------------------
  // Properties
  // ---------------------------------------------------------------------------

  /** Every field of the result follows the defaulting rule for its own input field. */
  lemma CreateCardDataFieldwise(data: PartialCardData, i: nat)
    requires i < |CardDataLayout|
    ensures Fields(CreateCardData(data))[i] == Resolve(CardDataLayout[i].1, PartialFields(data)[i])
  {
    var fs, ps := Fields(CreateCardData(data)), PartialFields(data);
    if i == 2 {
      match data.setcode
      case Some(s) => assert fs[i] == Array(s);
      case None => assert fs[i] == Zero(UInt16Array(16));
    } else {
      assert CardDataLayout[i].1 != UInt16Array(16);
    }
  }

  /** A supplied field, an explicit 0 included, is copied unchanged. */
  lemma SuppliedFieldKept(data: PartialCardData, i: nat, v: FieldValue)
    requires i < |CardDataLayout| && PartialFields(data)[i] == Some(v)
    ensures Fields(CreateCardData(data))[i] == v
  {
    CreateCardDataFieldwise(data, i);
  }

  /** An absent field becomes the zero of its type. */
  lemma AbsentFieldZero(data: PartialCardData, i: nat)
    requires i < |CardDataLayout| && PartialFields(data)[i].None?
    ensures Fields(CreateCardData(data))[i] == Zero(CardDataLayout[i].1)
  {
    CreateCardDataFieldwise(data, i);
  }

  /** Fields default independently: inputs that agree off field i give results that agree off field i. */
  lemma FieldsIndependent(p: PartialCardData, q: PartialCardData, i: nat)
    requires i < |CardDataLayout|
    requires forall j :: 0 <= j < |CardDataLayout| && j != i ==> PartialFields(p)[j] == PartialFields(q)[j]
    ensures forall j :: 0 <= j < |CardDataLayout| && j != i ==>
      Fields(CreateCardData(p))[j] == Fields(CreateCardData(q))[j]
  {
    forall j | 0 <= j < |CardDataLayout| && j != i
      ensures Fields(CreateCardData(p))[j] == Fields(CreateCardData(q))[j]
    {
      CreateCardDataFieldwise(p, j);
      CreateCardDataFieldwise(q, j);
    }
  }

  /** With no argument every scalar is 0 and `setcode` is sixteen zeros, which fits the struct. */
  lemma DefaultCardData()
    ensures var c := CreateCardData(NoFields);
      && c.code == c.alias == c.cardType == c.level == c.attribute == c.race == 0
      && c.attack == c.defense == c.lscale == c.rscale == c.link_marker == 0
      && c.setcode == seq(16, _ => 0)
      && Conforms(c)
  {
    var c := CreateCardData(NoFields);
    forall i | 0 <= i < |CardDataLayout| ensures Fits(CardDataLayout[i].1, Fields(c)[i]) {
      AbsentFieldZero(NoFields, i);
    }
  }

  /**
   * The result can be marshalled into the struct exactly when every supplied
   * field already fits its native type; `createCardData` itself checks none
   * of them.
   */
  lemma CreateCardDataConforms(data: PartialCardData)
    ensures Conforms(CreateCardData(data)) <==>
      forall i :: 0 <= i < |CardDataLayout| && PartialFields(data)[i].Some? ==>
        Fits(CardDataLayout[i].1, PartialFields(data)[i].value)
  {
    var c := CreateCardData(data);
    forall i | 0 <= i < |CardDataLayout|
      ensures Fits(CardDataLayout[i].1, Fields(c)[i]) <==>
        (PartialFields(data)[i].Some? ==> Fits(CardDataLayout[i].1, PartialFields(data)[i].value))
    {
      CreateCardDataFieldwise(data, i);
    }
  }

  /** The record has the twelve declared fields with their declared names, in struct order. */
  lemma FieldOrder()
    ensures |CardDataLayout| == 12
    ensures forall c: CardData :: |Fields(c)| == 12 && Fields(c)[2] == Array(c.setcode)
    ensures CardDataLayout[2] == ("setcode", UInt16Array(SetcodeLength))
    ensures seq(12, i requires 0 <= i < 12 => CardDataLayout[i].0) ==
      ["code", "alias", "setcode", "type", "level", "attribute", "race",
       "attack", "defense", "lscale", "rscale", "link_marker"]
  {
  }
}
