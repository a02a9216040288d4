/** The abstract syntax tree of an IDL file: a package, its imports and its
    constructs (data, enumeration, choice and topic definitions). Every node
    is an immutable value compared structurally. */
module IdlTypes {
  import opened Core

  datatype TypeIdentifier = TypeIdentifier(id: string)

  datatype EnumerationItem = EnumerationItem(id: string, tag: int)

  datatype Enumeration = Enumeration(id: TypeIdentifier, options: seq<EnumerationItem>)

  datatype Identifier = Identifier(id: string)

  /** The type of a field: eight primitives, a map, a list or a named type.
      The map and list variants are `MapOf` and `ListOf` here, so that their
      names do not clash with the `Map` combinator. */
  datatype FieldType =
    | Int8
    | Int16
    | Int32
    | String
    | Boolean
    | Float
    | GUID
    | DateTime
    | MapOf(keyType: FieldType, valType: FieldType)
    | ListOf(valType: FieldType)
    | CustomType(id: TypeIdentifier)
  {
    predicate IsPrimitive() {
      !MapOf? && !ListOf? && !CustomType?
    }
  }

  datatype Field = Field(id: Identifier, fieldType: FieldType, tag: int)

  datatype Data = Data(id: TypeIdentifier, fields: seq<Field>)

  /** An option of a choice; its body of fields may be absent. */
  datatype Option = Option(id: TypeIdentifier, body: Maybe<seq<Field>>, tag: int)

  datatype Choice = Choice(id: TypeIdentifier, options: seq<Option>)

  /** A topic names its request type and, when there is one, its response type. */
  datatype Topic = Topic(text: string, requestType: TypeIdentifier, responseType: Maybe<TypeIdentifier>)

  datatype Package = Package(text: string)

  datatype Import = Import(text: string)

  datatype Construct =
    | Enumeration(enumeration: Enumeration)
    | DataObject(data: Data)
    | ChoiceObject(choice: Choice)
    | TopicObject(topic: Topic)

  datatype File = File(packageIdentifier: Package, imports: seq<Import>, constructs: seq<Construct>)

  /** How deeply maps and lists are nested inside a field type. */
  function Depth(t: FieldType): (d: nat)
    ensures d == 0 <==> !t.MapOf? && !t.ListOf?
  {
    match t
    case MapOf(k, v) => 1 + (if Depth(k) < Depth(v) then Depth(v) else Depth(k))
    case ListOf(v) => 1 + Depth(v)
    case _ => 0
  }

  /** The name a construct declares, if it declares a type: a topic declares
      none. */
  function DeclaredType(c: Construct): (r: Maybe<TypeIdentifier>)
    ensures r.None? <==> c.TopicObject?
    ensures c.DataObject? ==> r == Just(c.data.id)
    ensures c.ChoiceObject? ==> r == Just(c.choice.id)
    ensures c.Enumeration? ==> r == Just(c.enumeration.id)
  {
    match c
    case DataObject(d) => Just(d.id)
    case ChoiceObject(ch) => Just(ch.id)
    case TopicObject(_) => None
    case Enumeration(e) => Just(e.id)
  }
}
