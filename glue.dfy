/** The response wrapper of the old HTTP glue layer: a non-null handle to a
    response owned by the native runtime, the guard that destroys it at most
    once, the empty-means-absent rule for the attached file, and the
    normalisation that gives header names their conventional capitalisation. */
module Glue {
  import opened Wrappers

  /** `usize` on a 64-bit target; 0 is the null handle. */
  type Pointer = x: int | 0 <= x < 0x1_0000_0000_0000_0000

  const NullPointerMessage: string := "Got a null pointer"

  /** The native runtime, as far as this layer can observe it: the handles
      passed to `ice_glue_destroy_response`, in call order. */
  class Runtime {
    var destroyed: seq<Pointer>

    constructor ()
      ensures destroyed == []
    {
      destroyed := [];
    }
  }

  /** The null check of `Response::from_raw`: handle 0 panics, any other
      handle is kept as it is. */
  function CheckHandle(handle: Pointer): (r: Outcome<Pointer>)
    ensures r.Ok? <==> handle != 0
    ensures r.Ok? ==> r.value == handle
    ensures !r.Ok? ==> r == Panic(NullPointerMessage)
  {
    if handle == 0 then Panic(NullPointerMessage) else Ok(handle)
  }

  class Response {
    var handle: Pointer

    constructor (handle: Pointer)
      ensures this.handle == handle
    {
      this.handle := handle;
    }

    /** `Response::from_raw`: a response object exists only for a non-null
        handle, and it stores that handle unchanged. */
    static method FromRaw(handle: Pointer) returns (r: Outcome<Response>)
      ensures r.Ok? <==> handle != 0
      ensures r.Ok? ==> fresh(r.value) && r.value.handle == handle
      ensures !r.Ok? ==> r == Panic(NullPointerMessage)
    {
      match CheckHandle(handle)
      case Ok(h) =>
        var resp := new Response(h);
        r := Ok(resp);
      case Panic(msg) =>
        r := Panic(msg);
      case Abort =>
        r := Abort;
    }

    /** `get_file`, with the runtime's getter `ice_glue_response_get_file`
        given as the function `fileOf` from handles to the C string it
        returns. */
    function GetFile(fileOf: Pointer -> string): (r: Option<string>)
      reads this
      ensures r == None <==> fileOf(handle) == []
      ensures r.Some? ==> r.value == fileOf(handle)
    {
      var raw := fileOf(handle);
      if |raw| == 0 then None else Some(raw)
    }

    /** `Drop for Response`: a non-null handle is destroyed once and then
        zeroed; a zero handle is left alone. */
    method Drop(rt: Runtime)
      modifies this, rt
      ensures handle == 0
      ensures old(handle) == 0 ==> rt.destroyed == old(rt.destroyed)
      ensures old(handle) != 0 ==> rt.destroyed == old(rt.destroyed) + [old(handle)]
    {
      if handle == 0 {
        return;
      }
      rt.destroyed := rt.destroyed + [handle];
      handle := 0;
    }
  }

  /** Dropping a response any number of times destroys its handle at most
      once: a second drop finds the handle zeroed. */
  method DropTwice(resp: Response, rt: Runtime)
    modifies resp, rt
    ensures resp.handle == 0
    ensures rt.destroyed == old(rt.destroyed) + (if old(resp.handle) == 0 then [] else [old(resp.handle)])
  {
    resp.Drop(rt);
    resp.Drop(rt);
  }

  /** `char::to_ascii_uppercase`: only 'a'..'z' change. */
  function ToAsciiUpper(c: char): (u: char)
    ensures 'a' <= c <= 'z' ==> 'A' <= u <= 'Z' && u as int == c as int - 32
    ensures !('a' <= c <= 'z') ==> u == c
  {
    if 'a' <= c <= 'z' then (c as int - 32) as char else c
  }

  lemma ToAsciiUpperIdempotent(c: char)
    ensures ToAsciiUpper(ToAsciiUpper(c)) == ToAsciiUpper(c)
    ensures ToAsciiUpper(c) == '-' <==> c == '-'
  {
  }

  /** Position `i` of `v` starts a word of a header name: it is the first
      character or it follows a '-'. */
  predicate StartsWord(v: string, i: nat)
    requires i < |v|
  {
    i == 0 || v[i - 1] == '-'
  }

  /** The normalised header name, stated position by position. */
  function HeaderCase(v: string): (r: string)
  {
    seq(|v|, i requires 0 <= i < |v| => if StartsWord(v, i) then ToAsciiUpper(v[i]) else v[i])
  }

  /** `transform_header_name`: one pass over the characters, upper-casing
      the first one and every one after a '-'. */
  method TransformHeaderName(v: string) returns (ret: string)
    ensures |ret| == |v|
    ensures |v| > 0 ==> ret[0] == ToAsciiUpper(v[0])
    ensures forall i :: 0 < i < |v| && v[i - 1] == '-' ==> ret[i] == ToAsciiUpper(v[i])
    ensures forall i :: 0 < i < |v| && v[i - 1] != '-' ==> ret[i] == v[i]
    ensures forall i :: 0 <= i < |v| ==> (ret[i] == '-' <==> v[i] == '-')
    ensures ret == HeaderCase(v)
  {
    ret := "";
    var upperCase := true;
    for k := 0 to |v|
      invariant |ret| == k
      invariant upperCase <==> (k == 0 || v[k - 1] == '-')
      invariant forall i :: 0 <= i < k ==> ret[i] == HeaderCase(v)[i]
    {
      var ch := v[k];
      if upperCase {
        ret := ret + [ToAsciiUpper(ch)];
        upperCase := false;
      } else {
        ret := ret + [ch];
      }
      if ch == '-' {
        upperCase := true;
      }
    }
    forall i | 0 <= i < |v|
      ensures ret[i] == '-' <==> v[i] == '-'
    {
      ToAsciiUpperIdempotent(v[i]);
    }
  }

  /** Normalising keeps every '-' where it was, so the word starts of the
      output are those of the input. */
  lemma HeaderCaseKeepsDashes(v: string)
    ensures |HeaderCase(v)| == |v|
    ensures forall i :: 0 <= i < |v| ==> (HeaderCase(v)[i] == '-' <==> v[i] == '-')
  {
    forall i | 0 <= i < |v|
      ensures HeaderCase(v)[i] == '-' <==> v[i] == '-'
    {
      ToAsciiUpperIdempotent(v[i]);
    }
  }

  /** Normalising a normalised name changes nothing. */
  lemma HeaderCaseIdempotent(v: string)
    ensures HeaderCase(HeaderCase(v)) == HeaderCase(v)
  {
    var w := HeaderCase(v);
    HeaderCaseKeepsDashes(v);
    forall i | 0 <= i < |v|
      ensures HeaderCase(w)[i] == w[i]
    {
      ToAsciiUpperIdempotent(v[i]);
    }
  }

  /** Only word starts change, and a name whose word starts are already
      upper case (or not letters) is a fixed point. */
  lemma HeaderCaseFixedPoint(v: string)
    ensures HeaderCase(v) == v <==> forall i :: 0 <= i < |v| && StartsWord(v, i) ==> !('a' <= v[i] <= 'z')
  {
    if HeaderCase(v) == v {
      forall i | 0 <= i < |v| && StartsWord(v, i)
        ensures !('a' <= v[i] <= 'z')
      {
        assert HeaderCase(v)[i] == v[i];
      }
    }
  }
}
