/** Path joining in the manner of Go's `filepath.Join` on a Unix host. */
module Paths {

  /** Joins the non-empty elements with "/". */
  function Join(elems: seq<string>): (p: string)
    ensures (forall i :: 0 <= i < |elems| ==> elems[i] == "") ==> p == ""
  {
    if |elems| == 0 then ""
    else if elems[0] == "" then Join(elems[1..])
    else
      var rest := Join(elems[1..]);
      if rest == "" then elems[0] else elems[0] + "/" + rest
  }

  lemma JoinTwo(dir: string, name: string)
    requires dir != "" && name != ""
    ensures Join([dir, name]) == dir + "/" + name
  {
    assert [dir, name][1..] == [name];
    assert [name][1..] == [];
  }

  lemma JoinThree(dir: string, sub: string, name: string)
    requires dir != "" && sub != "" && name != ""
    ensures Join([dir, sub, name]) == dir + "/" + sub + "/" + name
  {
    assert [dir, sub, name][1..] == [sub, name];
    JoinTwo(sub, name);
  }
}
