/** The shareable state in the location hash (src/composables/useUrlState.ts):
    the hash's query parameters, read into the four fields `v`, `d`, `a`, `e`
    and changed by a patch or by removing one key. */
module UrlState {
  import opened Wrappers

  /** The parameters of a `URLSearchParams`, in order; a name may repeat. */
  type Params = seq<(string, string)>

  /** `params.has(k)`. */
  predicate Has(p: Params, k: string) {
    exists i :: 0 <= i < |p| && p[i].0 == k
  }

  /** `params.get(k)`: the value of the first pair named `k`. */
  function Get(p: Params, k: string): (r: Option<string>)
    ensures r.Some? <==> Has(p, k)
    ensures r.Some? ==> exists i :: 0 <= i < |p| && p[i] == (k, r.value) && forall j :: 0 <= j < i ==> p[j].0 != k
  {
    if p == [] then None
    else if p[0].0 == k then Some(p[0].1)
    else
      var r := Get(p[1..], k);
      assert forall i :: 0 <= i < |p[1..]| ==> p[1..][i] == p[i + 1];
      r
  }

  /** `params.delete(k)`: every pair named `k` goes, the rest keep their order. */
  function Delete(p: Params, k: string): (r: Params)
    ensures |r| <= |p|
    ensures forall x :: x in r <==> x in p && x.0 != k
  {
    if p == [] then []
    else (if p[0].0 == k then [] else [p[0]]) + Delete(p[1..], k)
  }

  /** The first pair named `k` takes the value, later ones go. */
  function SetFirst(p: Params, k: string, v: string): Params {
    if p == [] then []
    else if p[0].0 == k then [(k, v)] + Delete(p[1..], k)
    else [p[0]] + SetFirst(p[1..], k, v)
  }

  /** `params.set(k, v)`: replace the first pair named `k` and drop the
      others, or append the pair when there is none. */
  function Set(p: Params, k: string, v: string): Params {
    if Has(p, k) then SetFirst(p, k, v) else p + [(k, v)]
  }

  /** After a delete, `k` is absent and every other name reads as before. */
  lemma {:induction false} GetDelete(p: Params, k: string, k': string)
    ensures Get(Delete(p, k), k) == None
    ensures k' != k ==> Get(Delete(p, k), k') == Get(p, k')
  {
    if p != [] {
      GetDelete(p[1..], k, k');
      if p[0].0 == k {
        assert Delete(p, k) == Delete(p[1..], k);
      } else {
        assert Delete(p, k) == [p[0]] + Delete(p[1..], k);
        assert Delete(p, k)[1..] == Delete(p[1..], k);
      }
    }
  }

  lemma {:induction false} GetSetFirst(p: Params, k: string, v: string, k': string)
    requires Has(p, k)
    ensures Get(SetFirst(p, k, v), k) == Some(v)
    ensures k' != k ==> Get(SetFirst(p, k, v), k') == Get(p, k')
  {
    if p[0].0 == k {
      GetDelete(p[1..], k, k');
      assert SetFirst(p, k, v)[1..] == Delete(p[1..], k);
    } else {
      assert Has(p[1..], k) by {
        var i :| 0 <= i < |p| && p[i].0 == k;
        assert p[1..][i - 1] == p[i];
      }
      GetSetFirst(p[1..], k, v, k');
      assert SetFirst(p, k, v)[1..] == SetFirst(p[1..], k, v);
    }
  }

  lemma {:induction false} GetAppend(p: Params, k: string, v: string, k': string)
    requires !Has(p, k)
    ensures Get(p + [(k, v)], k) == Some(v)
    ensures k' != k ==> Get(p + [(k, v)], k') == Get(p, k')
  {
    if p != [] {
      assert !Has(p[1..], k);
      GetAppend(p[1..], k, v, k');
      assert (p + [(k, v)])[1..] == p[1..] + [(k, v)];
    }
  }

  /** After a set, `k` reads as `v` and every other name reads as before. */
  lemma GetSet(p: Params, k: string, v: string, k': string)
    ensures Get(Set(p, k, v), k) == Some(v)
    ensures k' != k ==> Get(Set(p, k, v), k') == Get(p, k')
  {
    if Has(p, k) {
      GetSetFirst(p, k, v, k');
    } else {
      GetAppend(p, k, v, k');
    }
  }

  /** One patch entry: a name with a value, where `None` stands for
      `undefined` or `null`. */
  type PatchEntry = (string, Option<string>)

  /** An absent or empty value deletes the name; any other value sets it. */
  function ApplyEntry(p: Params, entry: PatchEntry): Params {
    var (k, val) := entry;
    if val == None || val == Some("") then Delete(p, k) else Set(p, k, val.value)
  }

  /** The patch applied entry by entry, in order. */
  function ApplyPatch(p: Params, patch: seq<PatchEntry>): Params {
    if patch == [] then p else ApplyEntry(ApplyPatch(p, patch[..|patch| - 1]), patch[|patch| - 1])
  }

  /** What the patch does to name `k`: nothing when `k` is not in it,
      otherwise what its last entry for `k` says (`None` for a delete). */
  function PatchEffect(patch: seq<PatchEntry>, k: string): Option<Option<string>> {
    if patch == [] then None
    else
      var (k0, val) := patch[|patch| - 1];
      if k0 == k then Some(if val == None || val == Some("") then None else val)
      else PatchEffect(patch[..|patch| - 1], k)
  }

  /** Every name reads, after the patch, as its last entry in the patch says;
      a name the patch does not mention reads as before. */
  lemma {:induction false} GetApplyPatch(p: Params, patch: seq<PatchEntry>, k: string)
    ensures Get(ApplyPatch(p, patch), k) ==
              match PatchEffect(patch, k)
              case None => Get(p, k)
              case Some(effect) => effect
  {
    if patch != [] {
      var before := ApplyPatch(p, patch[..|patch| - 1]);
      GetApplyPatch(p, patch[..|patch| - 1], k);
      var (k0, val) := patch[|patch| - 1];
      if val == None || val == Some("") {
        GetDelete(before, k0, k);
      } else {
        GetSet(before, k0, val.value, k);
      }
    }
  }

  /** The hash's state as the app reads it. */
  datatype HashState = HashState(v: Option<string>, d: Option<string>, a: Option<string>, e: Option<string>)

  /** `parseHash` over the current parameters. */
  function ParseHash(p: Params): (r: HashState)
    ensures r.v.Some? <==> Has(p, "v")
    ensures r.d.Some? <==> Has(p, "d")
    ensures r.a.Some? <==> Has(p, "a")
    ensures r.e.Some? <==> Has(p, "e")
  {
    HashState(
      if Has(p, "v") then Get(p, "v") else None,
      if Has(p, "d") then Get(p, "d") else None,
      if Has(p, "a") then Get(p, "a") else None,
      if Has(p, "e") then Get(p, "e") else None)
  }

  /** `updateHash({k: v})` with a non-empty value makes `parseHash` report
      `k = v` and leaves the other three fields as they were. */
  lemma UpdateThenParse(p: Params, k: string, v: string)
    requires v != ""
    ensures var after := ParseHash(ApplyPatch(p, [(k, Some(v))]));
      var before := ParseHash(p);
      && (k == "v" ==> after == before.(v := Some(v)))
      && (k == "d" ==> after == before.(d := Some(v)))
      && (k == "a" ==> after == before.(a := Some(v)))
      && (k == "e" ==> after == before.(e := Some(v)))
      && (k !in ["v", "d", "a", "e"] ==> after == before)
  {
    var patch := [(k, Some(v))];
    assert patch[..0] == [];
    GetApplyPatch(p, patch, "v");
    GetApplyPatch(p, patch, "d");
    GetApplyPatch(p, patch, "a");
    GetApplyPatch(p, patch, "e");
  }

  /** The hash written by `setParams`: none at all for empty parameters,
      otherwise `#` and the parameters. */
  function Published(p: Params): (h: Option<Params>)
    ensures h.GetOr([]) == p
    ensures h != Some([])
  {
    if p == [] then None else Some(p)
  }

  /** The location's hash. */
  class Location {
    var hash: Option<Params>

    constructor (hash: Option<Params>)
      ensures this.hash == hash
    {
      this.hash := hash;
    }

    /** `getParams`: no hash reads as no parameters. */
    function Params(): Params
      reads this
    {
      hash.GetOr([])
    }

    /** `setParams`. */
    method SetParams(p: Params)
      modifies this
      ensures hash == Published(p)
    {
      if p == [] {
        hash := None;
      } else {
        hash := Some(p);
      }
    }

    /** `updateHash`: the patch applied entry by entry, then written back. */
    method UpdateHash(patch: seq<PatchEntry>)
      modifies this
      ensures hash == Published(ApplyPatch(old(Params()), patch))
    {
      var p := Params();
      ghost var p0 := p;
      for i := 0 to |patch|
        invariant p == ApplyPatch(p0, patch[..i])
      {
        assert patch[..i + 1][..i] == patch[..i];
        var (key, val) := patch[i];
        if val == None || val == Some("") {
          p := Delete(p, key);
        } else {
          p := Set(p, key, val.value);
        }
      }
      assert patch[..|patch|] == patch;
      SetParams(p);
    }

    /** `removeHashParam`. */
    method RemoveHashParam(k: string)
      modifies this
      ensures hash == Published(Delete(old(Params()), k))
    {
      var p := Params();
      p := Delete(p, k);
      SetParams(p);
    }
  }
}
