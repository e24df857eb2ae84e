/** The first and the last element of a name in a sequence, and one text in another. */
module Names {

  predicate OccursAt(sub: string, text: string, i: nat) {
    i + |sub| <= |text| && text[i..i + |sub|] == sub
  }

  /** Position of the first element of the name, or the length when there is none. */
  function FirstNamed<T>(nameOf: T -> string, xs: seq<T>, name: string): (k: nat)
    ensures k <= |xs|
    ensures k < |xs| ==> nameOf(xs[k]) == name
    ensures forall i | 0 <= i < k :: nameOf(xs[i]) != name
  {
    if xs == [] || nameOf(xs[0]) == name then 0 else 1 + FirstNamed(nameOf, xs[1..], name)
  }

  /** Position of the last one, or the length when there is none. */
  function LastNamed<T>(nameOf: T -> string, xs: seq<T>, name: string): (k: nat)
    ensures k <= |xs|
    ensures k < |xs| ==> nameOf(xs[k]) == name
    ensures forall i | (if k < |xs| then k < i else 0 <= i) && i < |xs| :: nameOf(xs[i]) != name
  {
    if xs == [] then 0
    else if nameOf(xs[|xs| - 1]) == name then |xs| - 1
    else
      var k := LastNamed(nameOf, xs[..|xs| - 1], name);
      if k == |xs| - 1 then |xs| else k
  }

  lemma FirstNamedIs<T>(nameOf: T -> string, xs: seq<T>, name: string, k: nat)
    requires k < |xs| && nameOf(xs[k]) == name && forall i | 0 <= i < k :: nameOf(xs[i]) != name
    ensures FirstNamed(nameOf, xs, name) == k
  {
  }

  /** One element more is the first of its name only when there was none. */
  lemma FirstNamedGrows<T>(nameOf: T -> string, xs: seq<T>, x: T, name: string)
    ensures FirstNamed(nameOf, xs, name) < |xs| ==> FirstNamed(nameOf, xs + [x], name) == FirstNamed(nameOf, xs, name)
    ensures FirstNamed(nameOf, xs, name) == |xs| ==>
              FirstNamed(nameOf, xs + [x], name) == if nameOf(x) == name then |xs| else |xs| + 1
  {
    var k := FirstNamed(nameOf, xs, name);
    if k < |xs| || nameOf(x) == name {
      FirstNamedIs(nameOf, xs + [x], name, k);
    }
  }
}
