/** Preparing the scan: the target directory and the names `ls -a` printed. */
module Listing {
  import opened Results
  import opened Text

  /** The target directory, made to end in `/`. Indexing the last character of
      an empty argument raises IndexError. */
  function NormaliseDir(dir: string): (r: Result<string>)
    ensures r.Err? <==> dir == ""
    ensures r.Ok? ==> |r.value| > 0 && r.value[|r.value| - 1] == '/'
    ensures r.Ok? ==> |dir| <= |r.value| <= |dir| + 1 && r.value[..|dir|] == dir
    ensures dir != "" && dir[|dir| - 1] == '/' ==> r == Ok(dir)
  {
    if |dir| == 0 then Err(EmptyDirArgument)
    else if dir[|dir| - 1] != '/' then Ok(dir + "/")
    else Ok(dir)
  }

  /** Normalising twice is normalising once. */
  lemma NormaliseDirIdempotent(dir: string)
    requires dir != ""
    ensures NormaliseDir(NormaliseDir(dir).value) == NormaliseDir(dir)
  {
  }

  /** `xs.remove(x)`: drops the first occurrence of `x`; ValueError if there is none. */
  function RemoveFirst(xs: seq<string>, x: string): (r: Result<seq<string>>)
    ensures r.Err? <==> x !in xs
    ensures r.Err? ==> r.error == MissingListingEntry(x)
    ensures r.Ok? ==> exists i :: 0 <= i < |xs| && xs[i] == x && x !in xs[..i]
                                   && r.value == xs[..i] + xs[i + 1..]
    ensures r.Ok? ==> multiset(r.value) + multiset{x} == multiset(xs)
    ensures r.Ok? ==> forall y :: y != x ==> (y in r.value <==> y in xs)
  {
    if x in xs then
      var i := IndexOf(xs, x);
      assert xs == xs[..i] + [x] + xs[i + 1..];
      Ok(xs[..i] + xs[i + 1..])
    else Err(MissingListingEntry(x))
  }

  /** The three names `main` removes from the listing. */
  predicate IsSpecial(name: string) {
    name == "." || name == ".." || name == ""
  }

  /** The names of `xs` other than the three removed ones, in order. */
  function Ordinary(xs: seq<string>): (r: seq<string>)
    ensures forall k :: 0 <= k < |r| ==> !IsSpecial(r[k])
  {
    if |xs| == 0 then []
    else if IsSpecial(xs[0]) then Ordinary(xs[1..])
    else [xs[0]] + Ordinary(xs[1..])
  }

  lemma {:induction false} OrdinaryAppend(a: seq<string>, b: seq<string>)
    ensures Ordinary(a + b) == Ordinary(a) + Ordinary(b)
  {
    if |a| == 0 {
      assert a + b == b;
    } else {
      assert (a + b)[1..] == a[1..] + b;
      OrdinaryAppend(a[1..], b);
    }
  }

  /** Removing one special name leaves the ordinary names and their order alone. */
  lemma OrdinaryAfterRemove(xs: seq<string>, x: string)
    requires IsSpecial(x) && x in xs
    ensures Ordinary(RemoveFirst(xs, x).value) == Ordinary(xs)
  {
    var i := IndexOf(xs, x);
    assert xs == xs[..i] + ([xs[i]] + xs[i + 1..]);
    OrdinaryAppend(xs[..i], [xs[i]] + xs[i + 1..]);
    OrdinaryAppend(xs[..i], xs[i + 1..]);
    assert ([xs[i]] + xs[i + 1..])[1..] == xs[i + 1..];
  }

  lemma RemovedThree(lines: seq<string>, a: seq<string>, b: seq<string>, c: seq<string>)
    requires multiset(a) + multiset{"."} == multiset(lines)
    requires multiset(b) + multiset{".."} == multiset(a)
    requires multiset(c) + multiset{""} == multiset(b)
    ensures multiset(c) + multiset{".", "..", ""} == multiset(lines)
  {
    assert multiset{".", "..", ""} == multiset{""} + multiset{".."} + multiset{"."};
  }

  /** `str(out).split('\n')` followed by removing `.`, `..` and `''`, in that order. */
  function CleanListing(lsOut: string): (r: Result<seq<string>>)
    ensures r.Ok? <==> var lines := Split(lsOut, '\n'); "." in lines && ".." in lines && "" in lines
    ensures r.Ok? ==> multiset(r.value) + multiset{".", "..", ""} == multiset(Split(lsOut, '\n'))
    // the removals run in the order ".", "..", "" and the first one that misses raises
    ensures "." !in Split(lsOut, '\n') ==> r == Err(MissingListingEntry("."))
    ensures "." in Split(lsOut, '\n') && ".." !in Split(lsOut, '\n')
            ==> r == Err(MissingListingEntry(".."))
    ensures "." in Split(lsOut, '\n') && ".." in Split(lsOut, '\n') && "" !in Split(lsOut, '\n')
            ==> r == Err(MissingListingEntry(""))
  {
    var lines := Split(lsOut, '\n');
    var a :- RemoveFirst(lines, ".");
    var b :- RemoveFirst(a, "..");
    var c :- RemoveFirst(b, "");
    RemovedThree(lines, a, b, c);
    Ok(c)
  }

  /** Every name other than `.`, `..` and the empty one survives the cleanup,
      in the order `ls` printed it. */
  lemma CleanListingKeepsOrdinary(lsOut: string)
    requires CleanListing(lsOut).Ok?
    ensures Ordinary(CleanListing(lsOut).value) == Ordinary(Split(lsOut, '\n'))
  {
    var lines := Split(lsOut, '\n');
    var a := RemoveFirst(lines, ".").value;
    var b := RemoveFirst(a, "..").value;
    OrdinaryAfterRemove(lines, ".");
    OrdinaryAfterRemove(a, "..");
    OrdinaryAfterRemove(b, "");
  }
}
