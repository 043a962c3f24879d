/**
  Typed records of the Inbox API (InboxAPIObject and its subclasses).

  A decoded JSON object is a `map<string, V>`, where `V` stands for whatever
  the JSON decoder produced for a value. A record is the decoded object cut
  down to the allow-list of its record kind; values are copied verbatim.
 */
module Records {
  import opened Wrappers

  /** The record subclasses; each one fixes an allow-list of attribute names. */
  datatype Kind = Message | Tag | Thread | Draft | File | Namespace

  const MESSAGE_ATTRS: seq<string> :=
    ["bcc", "body", "date", "files", "from", "id", "namespace",
     "object", "subject", "thread", "to", "unread"]

  const TAG_ATTRS: seq<string> := ["id", "name", "namespace", "object"]

  const THREAD_ATTRS: seq<string> :=
    ["drafts", "id", "messages", "namespace", "object", "participants",
     "snippet", "subject", "subject_date", "tags"]

  const FILE_ATTRS: seq<string> :=
    ["content_type", "filename", "id", "is_embedded", "message",
     "namespace", "object", "size"]

  const NAMESPACE_ATTRS: seq<string> :=
    ["account", "email_address", "id", "namespace", "object", "provider"]

  /** The class-level `attrs` list of each kind; a draft is a message with a workflow state. */
  function Attrs(kind: Kind): seq<string>
  {
    match kind
    case Message => MESSAGE_ATTRS
    case Tag => TAG_ATTRS
    case Thread => THREAD_ATTRS
    case Draft => MESSAGE_ATTRS + ["state"]
    case File => FILE_ATTRS
    case Namespace => NAMESPACE_ATTRS
  }

  function AttrSet(kind: Kind): set<string>
  {
    set a | a in Attrs(kind)
  }

  /** A typed record: its kind and the attributes it holds. */
  datatype Record<V> = Record(kind: Kind, fields: map<string, V>)

  /** The record invariant: no key outside the allow-list of its kind. */
  predicate AllowListed<V>(r: Record<V>)
  {
    r.fields.Keys <= AttrSet(r.kind)
  }

  /**
    What `from_dict` builds, stated independently of the loop: the keys are
    the raw keys intersected with the allow-list, each with the raw value.
   */
  function FromDictSpec<V>(kind: Kind, dct: map<string, V>): (r: Record<V>)
    ensures r.kind == kind && AllowListed(r)
    ensures r.fields.Keys == dct.Keys * AttrSet(kind)
    ensures forall a :: a in r.fields ==> r.fields[a] == dct[a]
  {
    Record(kind, map a | a in dct && a in Attrs(kind) :: dct[a])
  }

  /** `from_dict`: start from an empty record and copy each allow-listed key present in `dct`. */
  method FromDict<V>(kind: Kind, dct: map<string, V>) returns (obj: Record<V>)
    ensures obj.kind == kind
    ensures obj.fields.Keys == dct.Keys * AttrSet(kind)
    ensures forall a :: a in obj.fields ==> obj.fields[a] == dct[a]
    ensures obj == FromDictSpec(kind, dct)
  {
    var attrs := Attrs(kind);
    var fields: map<string, V> := map[];
    for i := 0 to |attrs|
      invariant forall a :: a in fields <==> a in dct && a in attrs[..i]
      invariant forall a :: a in fields ==> fields[a] == dct[a]
    {
      assert attrs[..i + 1] == attrs[..i] + [attrs[i]];
      if attrs[i] in dct {
        fields := fields[attrs[i] := dct[attrs[i]]];
      }
    }
    assert attrs[..|attrs|] == attrs;
    obj := Record(kind, fields);
  }

  /** Attribute access (`__getattr__` is item access): `None` stands for the KeyError of an absent key. */
  function GetAttr<V>(r: Record<V>, name: string): (v: Option<V>)
  {
    if name in r.fields then Some(r.fields[name]) else None
  }

  /** Reading an attribute of a freshly built record finds the raw value exactly when the key was both sent and allow-listed. */
  lemma GetAttrOfFromDict<V>(kind: Kind, dct: map<string, V>, name: string)
    ensures GetAttr(FromDictSpec(kind, dct), name).Some?
            <==> name in dct && name in Attrs(kind)
    ensures name in dct && name in Attrs(kind) ==>
              GetAttr(FromDictSpec(kind, dct), name) == Some(dct[name])
  {
  }

  /** An empty raw object gives an empty record, for every kind. */
  lemma FromDictOfEmpty<V>(kind: Kind, dct: map<string, V>)
    requires dct == map[]
    ensures FromDictSpec(kind, dct).fields == map[]
  {
  }

  /** Building a record from a record's own fields changes nothing. */
  lemma FromDictIdempotent<V>(kind: Kind, dct: map<string, V>)
    ensures FromDictSpec(kind, FromDictSpec(kind, dct).fields) == FromDictSpec(kind, dct)
  {
  }

  /** The draft allow-list is the message allow-list followed by "state". */
  lemma DraftAttrsExtendMessage()
    ensures Attrs(Draft) == Attrs(Message) + ["state"]
    ensures AttrSet(Draft) == AttrSet(Message) + {"state"}
  {
  }

  /**
    A draft built from `dct` agrees with a message built from `dct` on every
    message attribute, and holds at most "state" besides.
   */
  lemma DraftAgreesWithMessage<V>(dct: map<string, V>)
    ensures forall a :: a in MESSAGE_ATTRS ==>
              GetAttr(FromDictSpec(Draft, dct), a) == GetAttr(FromDictSpec(Message, dct), a)
    ensures FromDictSpec(Draft, dct).fields ==
            FromDictSpec(Message, dct).fields
              + (if "state" in dct then map["state" := dct["state"]] else map[])
  {
    DraftAttrsExtendMessage();
  }
}
