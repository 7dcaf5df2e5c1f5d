/** Chunked arrays: an ordered sequence of same-kind arrays treated as one
    column. Conversions are lifted to them with `try_map`, which converts the
    chunks in order and stops at the first failure. */
module Chunked {
  import opened Errors

  /** `try_map`: `f` applied to every chunk, or the error of the first chunk
      on which `f` fails. */
  function TryMap<T, U>(chunks: seq<T>, f: T --> Result<U>): (r: Result<seq<U>>)
    requires forall i | 0 <= i < |chunks| :: f.requires(chunks[i])
    ensures r.Ok? <==> forall i | 0 <= i < |chunks| :: f(chunks[i]).Ok?
    ensures r.Ok? ==> |r.value| == |chunks|
    ensures r.Ok? ==> forall i | 0 <= i < |chunks| :: r.value[i] == f(chunks[i]).value
    ensures r.Err? ==> exists i | 0 <= i < |chunks| ::
      f(chunks[i]).Err? && f(chunks[i]).error == r.error && forall j | 0 <= j < i :: f(chunks[j]).Ok?
  {
    if |chunks| == 0 then Ok([])
    else
      var n := |chunks| - 1;
      match TryMap(chunks[..n], f)
      case Err(e) => Err(e)
      case Ok(done) =>
        match f(chunks[n])
        case Err(e) => Err(e)
        case Ok(u) => Ok(done + [u])
  }

  /** Converting one more chunk extends a successful prefix by that chunk's result. */
  lemma TryMapStep<T, U>(chunks: seq<T>, f: T --> Result<U>, i: nat)
    requires i < |chunks|
    requires forall k | 0 <= k < |chunks| :: f.requires(chunks[k])
    requires TryMap(chunks[..i], f).Ok?
    ensures TryMap(chunks[..i + 1], f) ==
      match f(chunks[i])
      case Err(e) => Err(e)
      case Ok(u) => Ok(TryMap(chunks[..i], f).value + [u])
  {
    assert chunks[..i + 1][..i] == chunks[..i];
  }

  /** When every chunk converts, the result holds exactly the converted chunks. */
  lemma TryMapAllOk<T, U>(chunks: seq<T>, f: T --> Result<U>, us: seq<U>)
    requires |us| == |chunks|
    requires forall k | 0 <= k < |chunks| :: f.requires(chunks[k]) && f(chunks[k]) == Ok(us[k])
    ensures TryMap(chunks, f) == Ok(us)
  {
    var t := TryMap(chunks, f);
    assert t.Ok?;
    assert t.value == us;
  }

  /** A failure in a prefix is the failure of the whole sequence. */
  lemma {:induction false} TryMapPrefixErr<T, U>(chunks: seq<T>, f: T --> Result<U>, i: nat)
    requires i <= |chunks|
    requires forall k | 0 <= k < |chunks| :: f.requires(chunks[k])
    requires TryMap(chunks[..i], f).Err?
    ensures TryMap(chunks, f) == TryMap(chunks[..i], f)
    decreases |chunks| - i
  {
    if i < |chunks| {
      assert chunks[..i + 1][..i] == chunks[..i];
      TryMapPrefixErr(chunks, f, i + 1);
    } else {
      assert chunks[..i] == chunks;
    }
  }
}
