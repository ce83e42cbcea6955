/**
 * Decoded JSON values, as `encoding/json` hands them to `interface{}`.
 * Numbers stay abstract: Go decodes them to float64, and nothing modelled
 * here does arithmetic on them, so a number is just its 64-bit pattern.
 */
module Json {

  datatype Json =
    | Null
    | Bool(flag: bool)
    | Num(bits: bv64)
    | Str(text: string)
    | Arr(items: seq<Json>)
    | Obj(fields: map<string, Json>)
}

/**
 * How the secret loader combines a root secret with the nested secrets it
 * lists: a recursive merge in which the root wins every scalar conflict.
 */
module SecretMerge {

  import opened Wrappers
  import opened Errors
  import opened Json

  /**
   * `deepMerge`. Two objects merge key by key, recursing on shared keys; a
   * null root takes a nested object; any other root is kept as it is.
   */
  function DeepMerge(root: Json, nested: Json): (r: Json)
    decreases root
    ensures root.Obj? && nested.Obj? ==> r.Obj? && r.fields.Keys == root.fields.Keys + nested.fields.Keys
    ensures root.Obj? && nested.Obj? ==>
      forall k :: k in r.fields ==>
        r.fields[k] == (if k in root.fields && k in nested.fields then DeepMerge(root.fields[k], nested.fields[k])
                        else if k in root.fields then root.fields[k]
                        else nested.fields[k])
    ensures root.Obj? && !nested.Obj? ==> r == root
    ensures root.Null? ==> r == (if nested.Obj? then nested else Null)
    ensures !root.Obj? && !root.Null? ==> r == root
  {
    match root
    case Obj(rf) =>
      if !nested.Obj? then root
      else
        var nf := nested.fields;
        Obj(map k | k in rf.Keys + nf.Keys ::
          if k in rf && k in nf then DeepMerge(rf[k], nf[k])
          else if k in rf then rf[k]
          else nf[k])
    case Null => if nested.Obj? then nested else Null
    case _ => root
  }

  /** Merging a value into itself changes nothing. */
  lemma {:induction false} MergeSelf(j: Json)
    decreases j
    ensures DeepMerge(j, j) == j
  {
    if j.Obj? {
      var r := DeepMerge(j, j);
      forall k | k in j.fields
        ensures r.fields[k] == j.fields[k]
      {
        MergeSelf(j.fields[k]);
      }
      assert r.fields == j.fields;
    }
  }

  /** Merging in an empty object changes nothing. */
  lemma MergeEmptyObject(j: Json)
    ensures DeepMerge(j, Obj(map[])) == (if j.Null? then Obj(map[]) else j)
  {
    if j.Obj? {
      assert DeepMerge(j, Obj(map[])).fields == j.fields;
    }
  }

  /** Merging the same nested secret a second time adds nothing. */
  lemma {:induction false} MergeIdempotent(root: Json, nested: Json)
    decreases root
    ensures DeepMerge(DeepMerge(root, nested), nested) == DeepMerge(root, nested)
  {
    var once := DeepMerge(root, nested);
    match root
    case Obj(rf) =>
      if nested.Obj? {
        var nf := nested.fields;
        var twice := DeepMerge(once, nested);
        forall k | k in twice.fields
          ensures twice.fields[k] == once.fields[k]
        {
          if k in rf && k in nf {
            MergeIdempotent(rf[k], nf[k]);
          } else if k in nf {
            MergeSelf(nf[k]);
          }
        }
        assert twice.fields == once.fields;
      }
    case Null =>
      if nested.Obj? {
        MergeSelf(nested);
      }
    case _ =>
  }

  /** What `GetConfig` receives for each nested secret name: the decoded object, `None` for JSON null, or an error. */
  type SecretFetcher = string -> Result<Option<map<string, Json>>, Error>

  /** A Go panic (a failed type assertion) is modelled as this error. */
  const TypeAssertionPanic := Opaque("interface conversion: interface {} is not the expected type")

  /** The value a decoded `map[string]interface{}` takes when passed as `interface{}`. */
  function AsJson(m: Option<map<string, Json>>): Json {
    match m
    case Some(fields) => Obj(fields)
    case None => Null
  }

  /** The loop of `GetConfig`: fetch each listed secret and merge it into the running result, in list order. */
  function MergeNested(acc: Json, names: seq<Json>, fetch: SecretFetcher): (r: Result<Json, Error>)
    decreases |names|
  {
    if |names| == 0 then Success(acc)
    else if !names[0].Str? then Failure(TypeAssertionPanic)
    else match fetch(names[0].text)
      case Failure(e) => Failure(e)
      case Success(m) => MergeNested(DeepMerge(acc, AsJson(m)), names[1..], fetch)
  }

  /** The list is processed as a left fold: splitting it splits the merge. */
  lemma {:induction false} MergeNestedSplits(acc: Json, xs: seq<Json>, ys: seq<Json>, fetch: SecretFetcher)
    decreases |xs|
    ensures MergeNested(acc, xs + ys, fetch) ==
      (match MergeNested(acc, xs, fetch)
       case Success(mid) => MergeNested(mid, ys, fetch)
       case Failure(e) => Failure(e))
  {
    if |xs| == 0 {
      assert xs + ys == ys;
    } else {
      assert (xs + ys)[0] == xs[0];
      assert (xs + ys)[1..] == xs[1..] + ys;
      if xs[0].Str? {
        match fetch(xs[0].text)
        case Failure(_) =>
        case Success(m) => MergeNestedSplits(DeepMerge(acc, AsJson(m)), xs[1..], ys, fetch);
      }
    }
  }

  /**
   * The merging part of `GetConfig`: only a present, non-null "secrets"
   * entry triggers the loop, and it must hold an array.
   */
  function GetConfigMerge(secret: map<string, Json>, fetch: SecretFetcher): (r: Result<Json, Error>)
    ensures ("secrets" !in secret || secret["secrets"].Null?) ==> r == Success(Obj(secret))
    ensures "secrets" in secret && !secret["secrets"].Null? && !secret["secrets"].Arr? ==> r == Failure(TypeAssertionPanic)
    ensures "secrets" in secret && secret["secrets"].Arr? ==> r == MergeNested(Obj(secret), secret["secrets"].items, fetch)
  {
    if "secrets" !in secret || secret["secrets"].Null? then Success(Obj(secret))
    else if !secret["secrets"].Arr? then Failure(TypeAssertionPanic)
    else MergeNested(Obj(secret), secret["secrets"].items, fetch)
  }

  /** A root secret that lists itself as its only nested secret loads unchanged. */
  lemma SelfListingSecretIsUnchanged(secret: map<string, Json>, name: string, fetch: SecretFetcher)
    requires "secrets" in secret && secret["secrets"] == Arr([Str(name)])
    requires fetch(name) == Success(Some(secret))
    ensures GetConfigMerge(secret, fetch) == Success(Obj(secret))
  {
    var names := secret["secrets"].items;
    MergeSelf(Obj(secret));
    assert names[0] == Str(name) && names[1..] == [];
    assert MergeNested(Obj(secret), names, fetch) == MergeNested(DeepMerge(Obj(secret), Obj(secret)), [], fetch);
  }
}
