/** The value `xmltodict.parse` builds from an XML document, and the few Python
    operations the classifier applies to it: `d.get(k, default)`, truthiness,
    `len`, `isinstance(x, list)` / `isinstance(x, dict)` normalisation, `a or b`,
    `float(x)`, and the exceptions they raise on a value of the wrong kind. */
module XmlTree {
  import opened PyBuiltins

  /** An element's value: `None` for an empty element, a `str` for a text-only
      element, a dict (attributes as `@name`, children by tag, text as `#text`,
      in document order) for anything else, and a list where a tag repeats. */
  datatype Node =
    | Null
    | Text(s: string)
    | Dict(entries: seq<(string, Node)>)
    | List(items: seq<Node>)

  /** The Python exceptions the classifier can run into. */
  datatype PyError = AttributeError | TypeError | ValueError

  /** A Python computation: a value, or an exception that escapes it. */
  datatype Py<+T> = Ok(value: T) | Raised(error: PyError) {
    predicate IsFailure() {
      Raised?
    }

    function PropagateFailure<U>(): Py<U> {
      match this
      case Raised(e) => Raised(e)
      case Ok(_) => Raised(TypeError)
    }

    function Extract(): T
      requires Ok?
    {
      value
    }
  }

  const EmptyDict: Node := Dict([])
  const EmptyText: Node := Text("")

  /** `bool(x)`. */
  predicate Truthy(n: Node) {
    match n
    case Null => false
    case Text(s) => s != ""
    case Dict(e) => e != []
    case List(l) => l != []
  }

  /** `d[key]` on a dict's entries, or None where Python raises KeyError.
      xmltodict never repeats a key, so the first entry is the only one;
      LookupFound and LookupMissing state what it finds. */
  function Lookup(entries: seq<(string, Node)>, key: string): (r: Option<Node>)
    ensures r.Some? ==> |entries| > 0
  {
    if |entries| == 0 then None
    else if entries[0].0 == key then Some(entries[0].1)
    else Lookup(entries[1..], key)
  }

  /** A value found under `key` is that of an entry with that key. */
  lemma {:induction false} LookupFound(entries: seq<(string, Node)>, key: string)
    requires Lookup(entries, key).Some?
    ensures exists i :: 0 <= i < |entries| && entries[i] == (key, Lookup(entries, key).value)
  {
    if entries[0].0 != key {
      LookupFound(entries[1..], key);
      var i :| 0 <= i < |entries[1..]| && entries[1..][i] == (key, Lookup(entries, key).value);
      assert entries[i + 1] == entries[1..][i];
    }
  }

  /** Nothing is found exactly when no entry has the key. */
  lemma {:induction false} LookupMissing(entries: seq<(string, Node)>, key: string)
    ensures Lookup(entries, key).None? <==> forall i :: 0 <= i < |entries| ==> entries[i].0 != key
  {
    if |entries| > 0 && entries[0].0 != key {
      LookupMissing(entries[1..], key);
      assert forall i :: 1 <= i < |entries| ==> entries[i] == entries[1..][i - 1];
    }
  }

  /** `node.get(key, default)`: AttributeError unless `node` is a dict. */
  function Get(n: Node, key: string, default: Node): (r: Py<Node>)
    ensures r.Ok? <==> n.Dict?
    ensures !n.Dict? ==> r == Raised(AttributeError)
    ensures n.Dict? && Lookup(n.entries, key).Some? ==> r == Ok(Lookup(n.entries, key).value)
  {
    if n.Dict? then
      var v := Lookup(n.entries, key);
      Ok(if v.Some? then v.value else default)
    else Raised(AttributeError)
  }

  /** A dict without `key` gives the default. */
  lemma GetMissing(n: Node, key: string, default: Node)
    requires n.Dict? && forall i :: 0 <= i < |n.entries| ==> n.entries[i].0 != key
    ensures Get(n, key, default) == Ok(default)
  {
    LookupMissing(n.entries, key);
  }

  /** `x if isinstance(x, list) else [x]`. */
  function AsList(n: Node): (r: seq<Node>)
    ensures n.List? ==> r == n.items
    ensures !n.List? ==> r == [n]
  {
    if n.List? then n.items else [n]
  }

  /** `x if isinstance(x, dict) else {}`. */
  function DictOr(n: Node): (r: Node)
    ensures r.Dict?
    ensures n.Dict? ==> r == n
    ensures !n.Dict? ==> r == EmptyDict
  {
    if n.Dict? then n else EmptyDict
  }

  /** `a or b`: `a` when it is truthy, otherwise `b`. */
  function Or(a: Node, b: Node): (r: Node)
    ensures Truthy(r) <==> Truthy(a) || Truthy(b)
    ensures Truthy(a) ==> r == a
  {
    if Truthy(a) then a else b
  }

  /** `len(x)`: TypeError on `None`; a dict counts its keys. */
  function Len(n: Node): (r: Py<nat>)
    ensures r.Raised? <==> n.Null?
  {
    match n
    case Null => Raised(TypeError)
    case Text(s) => Ok(|s|)
    case Dict(e) => Ok(|e|)
    case List(l) => Ok(|l|)
  }

  /** `str(x).strip() == code` for a six-digit event type code: only a `str`
      can match, since `str(None)` is "None" and the text of a dict or list
      begins with a brace or a bracket. */
  predicate HasCode(n: Node, code: string) {
    n.Text? && Strip(n.s) == code
  }

  /** The two foreign parsers the classifier calls: `datetime.strptime(s,
      '%Y-%m-%dT%H:%M:%S')` and `float(s)` on a `str`, each None where
      Python raises ValueError. */
  datatype DateTime = DateTime(year: int, month: int, day: int, hour: int, minute: int, second: int)

  datatype Parsers = Parsers(strptime: string -> Option<DateTime>, parseFloat: string -> Option<real>)

  /** `float(x)`: ValueError for a `str` the parser rejects, TypeError for
      anything that is not a `str`. */
  function Float(p: Parsers, n: Node): (r: Py<real>)
    ensures r.Ok? ==> n.Text? && p.parseFloat(n.s) == Some(r.value)
    ensures n.Text? && p.parseFloat(n.s).Some? ==> r.Ok?
  {
    if n.Text? then
      var x := p.parseFloat(n.s);
      if x.Some? then Ok(x.value) else Raised(ValueError)
    else Raised(TypeError)
  }
}
