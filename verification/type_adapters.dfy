/**
 * chat.common.util.RuntimeTypeAdapterFactory: polymorphic JSON encoding for
 * a class hierarchy. Each registered subclass has a label; `write` puts the
 * label under the type field first and then the fields of the subclass's own
 * encoding; `read` dispatches on the label to the decoder registered for it.
 *
 * Gson is not modelled: a JSON object is its list of members, and the
 * delegate adapters Gson supplies for each class are abstract encode/decode
 * functions.
 */
module TypeAdapters {
  import opened Wrappers

  /** The name of a Java class. */
  type ClassName = string

  /** A JSON tree; a number keeps its literal text. */
  datatype Json =
    | JNull
    | JBool(b: bool)
    | JNum(literal: string)
    | JStr(s: string)
    | JArr(items: seq<Json>)
    | JObj(members: Members)

  /** The members of a JSON object, in order. */
  type Members = seq<(string, Json)>

  /** `JsonObject.get(name)`: when a name repeats, the value read last is kept. */
  function Lookup(members: Members, name: string): (r: Option<Json>)
    ensures r.None? <==> forall i :: 0 <= i < |members| ==> members[i].0 != name
    ensures r.Some? ==> exists i :: 0 <= i < |members| && members[i] == (name, r.value)
                          && forall j :: i < j < |members| ==> members[j].0 != name
  {
    if |members| == 0 then None
    else if members[|members| - 1].0 == name then Some(members[|members| - 1].1)
    else Lookup(members[..|members| - 1], name)
  }

  /**
   * `JsonElement.getAsString()`: a string, or a number's or boolean's text,
   * or the one element of a one-element array; None where Gson throws.
   */
  function AsString(j: Json): (r: Option<string>)
    ensures j.JStr? ==> r == Some(j.s)
    ensures j.JNull? || j.JObj? ==> r.None?
  {
    match j
    case JStr(s) => Some(s)
    case JNum(literal) => Some(literal)
    case JBool(b) => Some(if b then "true" else "false")
    case JArr(items) => if |items| == 1 then AsString(items[0]) else None
    case _ => None
  }

  /** The adapter Gson supplies for one concrete class. */
  datatype Delegate<!T> = Delegate(toTree: T -> Members, fromTree: Members -> Option<T>)

  /** Why a write or a read fails, with the Java exception each stands for. */
  datatype AdapterError =
    | NotRegistered(cls: ClassName)    // IllegalArgumentException: no label for the class
    | NoDelegate(cls: ClassName)       // NullPointerException: class registered after create
    | NotAnObject                      // IllegalStateException from getAsJsonObject
    | MissingTypeField(field: string)  // IOException
    | LabelNotAString                  // getAsString on null, an object or an array
    | UnknownLabel(tag: string)      // IOException
    | DelegateFailed                   // the subclass decoder rejects the tree

  /** What `write` has emitted into the object when it returns or throws. */
  datatype WriteOutcome = WriteOutcome(emitted: Members, error: Option<AdapterError>)

  class RuntimeTypeAdapterFactory<T> {
    const baseType: ClassName
    const typeFieldName: string
    var labelToSubtype: map<string, ClassName>
    var subtypeToLabel: map<ClassName, string>

    /** `RuntimeTypeAdapterFactory.of(baseType, typeFieldName)`: no subtypes yet. */
    constructor Of(baseType: ClassName, typeFieldName: string)
      ensures this.baseType == baseType && this.typeFieldName == typeFieldName
      ensures labelToSubtype == map[] && subtypeToLabel == map[]
    {
      this.baseType := baseType;
      this.typeFieldName := typeFieldName;
      labelToSubtype := map[];
      subtypeToLabel := map[];
    }

    /** `registerSubtype(type, label)`: both directions are recorded; returns this factory. */
    method RegisterSubtype(t: ClassName, tag: string) returns (r: RuntimeTypeAdapterFactory<T>)
      modifies this
      ensures r == this
      ensures labelToSubtype == old(labelToSubtype)[tag := t]
      ensures subtypeToLabel == old(subtypeToLabel)[t := tag]
    {
      labelToSubtype := labelToSubtype[tag := t];
      subtypeToLabel := subtypeToLabel[t := tag];
      r := this;
    }

    /**
     * `create(gson, type)`: no adapter unless the requested class is a
     * subclass of the base type; otherwise an adapter whose delegate maps are
     * filled now, one entry per registered label and class.
     * `supertypes(c)` holds c and every class c is assignable to;
     * `delegateFor` stands for `gson.getDelegateAdapter`.
     */
    method Create(rawType: ClassName, supertypes: ClassName -> set<ClassName>,
                  delegateFor: ClassName -> Delegate<T>, classOf: T -> ClassName)
      returns (r: Option<Adapter<T>>)
      ensures r.None? <==> baseType !in supertypes(rawType)
      ensures r.Some? ==> fresh(r.value) && r.value.factory == this && r.value.classOf == classOf
      ensures r.Some? ==> r.value.labelToDelegate.Keys == labelToSubtype.Keys
      ensures r.Some? ==> forall l :: l in labelToSubtype ==>
                            r.value.labelToDelegate[l] == delegateFor(labelToSubtype[l])
      ensures r.Some? ==> r.value.subtypeToDelegate.Keys == labelToSubtype.Values
      ensures r.Some? ==> forall c :: c in r.value.subtypeToDelegate ==>
                            r.value.subtypeToDelegate[c] == delegateFor(c)
    {
      if baseType !in supertypes(rawType) {
        return None;
      }
      var registry := labelToSubtype;
      var labelToDelegate: map<string, Delegate<T>> := map[];
      var subtypeToDelegate: map<ClassName, Delegate<T>> := map[];
      var remaining := registry.Keys;
      ghost var done: set<string> := {};
      while remaining != {}
        invariant remaining !! done && remaining + done == registry.Keys
        invariant labelToDelegate.Keys == done
        invariant forall l :: l in done ==> labelToDelegate[l] == delegateFor(registry[l])
        invariant subtypeToDelegate.Keys == ClassesOf(registry, done)
        invariant forall c :: c in subtypeToDelegate ==> subtypeToDelegate[c] == delegateFor(c)
        decreases remaining
      {
        var tag :| tag in remaining;
        var delegate := delegateFor(registry[tag]);
        labelToDelegate := labelToDelegate[tag := delegate];
        subtypeToDelegate := subtypeToDelegate[registry[tag] := delegate];
        remaining := remaining - {tag};
        done := done + {tag};
      }
      ClassesOfAll(registry);
      var adapter := new Adapter(this, labelToDelegate, subtypeToDelegate, classOf);
      r := Some(adapter);
    }
  }

  /** The classes registered under the labels in `labels`. */
  ghost function ClassesOf(registry: map<string, ClassName>, labels: set<string>): set<ClassName>
    requires labels <= registry.Keys
  {
    set l | l in labels :: registry[l]
  }

  lemma ClassesOfAll(registry: map<string, ClassName>)
    ensures ClassesOf(registry, registry.Keys) == registry.Values
  {
  }

  /** The adapter that `create` returns: its delegate maps are a snapshot, its label lookup is live. */
  class Adapter<T> {
    const factory: RuntimeTypeAdapterFactory<T>
    const labelToDelegate: map<string, Delegate<T>>
    const subtypeToDelegate: map<ClassName, Delegate<T>>
    const classOf: T -> ClassName

    constructor(factory: RuntimeTypeAdapterFactory<T>, labelToDelegate: map<string, Delegate<T>>,
                subtypeToDelegate: map<ClassName, Delegate<T>>, classOf: T -> ClassName)
      ensures this.factory == factory && this.classOf == classOf
      ensures this.labelToDelegate == labelToDelegate && this.subtypeToDelegate == subtypeToDelegate
    {
      this.factory := factory;
      this.labelToDelegate := labelToDelegate;
      this.subtypeToDelegate := subtypeToDelegate;
      this.classOf := classOf;
    }

    /**
     * What `write(out, value)` emits: nothing and an error for an unregistered
     * class; the type member alone and an error when the class was registered
     * after `create`; otherwise the type member followed by the delegate's members.
     */
    function Encode(v: T): (r: WriteOutcome)
      reads factory
      ensures classOf(v) !in factory.subtypeToLabel <==> r.error == Some(NotRegistered(classOf(v)))
      ensures classOf(v) !in factory.subtypeToLabel ==> r.emitted == []
      ensures classOf(v) in factory.subtypeToLabel ==>
                |r.emitted| >= 1 && r.emitted[0] == (factory.typeFieldName, JStr(factory.subtypeToLabel[classOf(v)]))
      ensures r.error.None? <==> classOf(v) in factory.subtypeToLabel && classOf(v) in subtypeToDelegate
      ensures r.error.None? ==> r.emitted[1..] == subtypeToDelegate[classOf(v)].toTree(v)
    {
      var cls := classOf(v);
      if cls !in factory.subtypeToLabel then WriteOutcome([], Some(NotRegistered(cls)))
      else
        var head := (factory.typeFieldName, JStr(factory.subtypeToLabel[cls]));
        if cls !in subtypeToDelegate then WriteOutcome([head], Some(NoDelegate(cls)))
        else WriteOutcome([head] + subtypeToDelegate[cls].toTree(v), None)
    }

    /** `write(out, value)`: the type member, then the delegate's members one by one. */
    method Write(v: T) returns (emitted: Members, error: Option<AdapterError>)
      ensures WriteOutcome(emitted, error) == Encode(v)
    {
      var srcType := classOf(v);
      if srcType !in factory.subtypeToLabel {
        return [], Some(NotRegistered(srcType));
      }
      var tag := factory.subtypeToLabel[srcType];
      emitted := [(factory.typeFieldName, JStr(tag))];
      if srcType !in subtypeToDelegate {
        return emitted, Some(NoDelegate(srcType));
      }
      var obj := subtypeToDelegate[srcType].toTree(v);
      var i := 0;
      while i < |obj|
        invariant 0 <= i <= |obj|
        invariant emitted == [(factory.typeFieldName, JStr(tag))] + obj[..i]
      {
        emitted := emitted + [obj[i]];
        i := i + 1;
      }
      error := None;
    }

    /** `read(in)`: the decoder registered for the object's label decodes the whole object. */
    function Read(j: Json): (r: Result<T, AdapterError>)
      ensures !j.JObj? ==> r == Failure(NotAnObject)
      ensures j.JObj? && Lookup(j.members, factory.typeFieldName).None? ==>
                r == Failure(MissingTypeField(factory.typeFieldName))
      ensures r.Success? ==>
                j.JObj? && Lookup(j.members, factory.typeFieldName).Some?
                && var tag := AsString(Lookup(j.members, factory.typeFieldName).value);
                   tag.Some? && tag.value in labelToDelegate
                   && labelToDelegate[tag.value].fromTree(j.members) == Some(r.value)
      ensures r.Failure? && r.error.UnknownLabel? ==>
                r.error.tag !in labelToDelegate
    {
      if !j.JObj? then Failure(NotAnObject)
      else
        match Lookup(j.members, factory.typeFieldName)
        case None => Failure(MissingTypeField(factory.typeFieldName))
        case Some(typeElement) =>
          match AsString(typeElement)
          case None => Failure(LabelNotAString)
          case Some(typeLabel) =>
            if typeLabel !in labelToDelegate then Failure(UnknownLabel(typeLabel))
            else
              match labelToDelegate[typeLabel].fromTree(j.members)
              case Some(v) => Success(v)
              case None => Failure(DelegateFailed)
    }
  }

  /** A type member put in front of members that do not repeat its name is what lookup finds. */
  lemma {:induction false} LookupFront(name: string, value: Json, rest: Members)
    requires forall i :: 0 <= i < |rest| ==> rest[i].0 != name
    ensures Lookup([(name, value)] + rest, name) == Some(value)
  {
    var ms := [(name, value)] + rest;
    if |rest| > 0 {
      assert ms[..|ms| - 1] == [(name, value)] + rest[..|rest| - 1];
      LookupFront(name, value, rest[..|rest| - 1]);
    }
  }

  /**
   * A registry in which no label was registered for two classes gives every
   * class the same delegate under its label as under its class.
   */
  lemma DelegatesAgree<T>(labelToSubtype: map<string, ClassName>, subtypeToLabel: map<ClassName, string>,
                          delegateFor: ClassName -> Delegate<T>, c: ClassName)
    requires c in subtypeToLabel && subtypeToLabel[c] in labelToSubtype
    requires labelToSubtype[subtypeToLabel[c]] == c
    ensures delegateFor(labelToSubtype[subtypeToLabel[c]]) == delegateFor(c)
  {
  }

  /**
   * Reading what `write` emitted gives the value back, provided its class is
   * registered both ways under one label, the delegate has no member named
   * like the type field, and the delegate decodes its own encoding (with the
   * type member in front) to the value.
   */
  lemma ReadAfterWrite<T>(a: Adapter<T>, v: T)
    requires a.classOf(v) in a.factory.subtypeToLabel && a.classOf(v) in a.subtypeToDelegate
    requires a.factory.subtypeToLabel[a.classOf(v)] in a.labelToDelegate
    requires a.labelToDelegate[a.factory.subtypeToLabel[a.classOf(v)]] == a.subtypeToDelegate[a.classOf(v)]
    requires var d := a.subtypeToDelegate[a.classOf(v)];
      forall i :: 0 <= i < |d.toTree(v)| ==> d.toTree(v)[i].0 != a.factory.typeFieldName
    requires var d := a.subtypeToDelegate[a.classOf(v)];
      d.fromTree([(a.factory.typeFieldName, JStr(a.factory.subtypeToLabel[a.classOf(v)]))] + d.toTree(v)) == Some(v)
    ensures a.Encode(v).error.None?
    ensures a.Read(JObj(a.Encode(v).emitted)) == Success(v)
  {
    var d := a.subtypeToDelegate[a.classOf(v)];
    var tag := a.factory.subtypeToLabel[a.classOf(v)];
    LookupFront(a.factory.typeFieldName, JStr(tag), d.toTree(v));
  }
}
