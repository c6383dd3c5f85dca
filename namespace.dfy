/**
 * The argparse namespace both core functions receive. vars(namespace) is an
 * insertion-ordered dictionary from attribute names to values; every value
 * argparse stores for this program is a string or None.
 */
module Namespaces {
  import opened Wrappers

  datatype Attr = Attr(name: string, value: Option<string>)

  /** Dictionary keys are distinct. */
  predicate DistinctNames(attrs: seq<Attr>) {
    forall i, j :: 0 <= i < j < |attrs| ==> attrs[i].name != attrs[j].name
  }

  /** Attribute access namespace.name: None where Python raises AttributeError. */
  function Lookup(attrs: seq<Attr>, name: string): (r: Option<Option<string>>)
    ensures r.Some? <==> exists i :: 0 <= i < |attrs| && attrs[i].name == name
    ensures r.Some? ==> exists i :: 0 <= i < |attrs| && attrs[i] == Attr(name, r.value)
  {
    if attrs == [] then None
    else if attrs[0].name == name then Some(attrs[0].value)
    else Lookup(attrs[1..], name)
  }

  /** The entries other than name, in their original order. */
  function Without(attrs: seq<Attr>, name: string): seq<Attr> {
    if attrs == [] then []
    else Without(attrs[..|attrs| - 1], name)
         + (if attrs[|attrs| - 1].name == name then [] else [attrs[|attrs| - 1]])
  }

  lemma {:induction false} WithoutMembers(attrs: seq<Attr>, name: string)
    ensures forall a :: a in Without(attrs, name) ==> a in attrs && a.name != name
  {
    if attrs != [] {
      WithoutMembers(attrs[..|attrs| - 1], name);
    }
  }

  lemma {:induction false} WithoutKeepsDistinct(attrs: seq<Attr>, name: string)
    requires DistinctNames(attrs)
    ensures DistinctNames(Without(attrs, name))
    ensures |Without(attrs, name)| == |attrs| - (if Lookup(attrs, name).Some? then 1 else 0)
  {
    if attrs != [] {
      var init := attrs[..|attrs| - 1];
      var last := attrs[|attrs| - 1];
      assert DistinctNames(init);
      WithoutKeepsDistinct(init, name);
      WithoutMembers(init, name);
      assert forall a :: a in init ==> a.name != last.name;
      if Lookup(attrs, name).Some? && last.name != name {
        var i :| 0 <= i < |attrs| && attrs[i].name == name;
        assert init[i].name == name;
      }
      if last.name == name {
        assert forall a :: a in init ==> a.name != name;
      }
    }
  }

  class Namespace {
    var attrs: seq<Attr>

    ghost predicate Valid()
      reads this
    {
      DistinctNames(attrs)
    }

    constructor (attrs: seq<Attr>)
      requires DistinctNames(attrs)
      ensures Valid() && this.attrs == attrs
    {
      this.attrs := attrs;
    }

    /** copy.deepcopy(namespace): the values are immutable strings, so a fresh namespace with equal entries. */
    method Copy() returns (c: Namespace)
      requires Valid()
      ensures fresh(c) && c.Valid() && c.attrs == attrs
    {
      c := new Namespace(attrs);
    }

    function Get(name: string): Option<Option<string>>
      reads this
    {
      Lookup(attrs, name)
    }

    /** del vars(namespace)[name]; the attribute must exist, or Python raises KeyError. */
    method Delete(name: string)
      requires Valid() && Get(name).Some?
      modifies this
      ensures Valid()
      ensures attrs == Without(old(attrs), name)
      ensures |attrs| == |old(attrs)| - 1
    {
      WithoutKeepsDistinct(attrs, name);
      attrs := Without(attrs, name);
    }
  }
}
