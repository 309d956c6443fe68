/**
 * What the adapters borrow from Go's standard library and cannot be
 * reasoned about here: keyed hashes, hex encoding, query encoding, `%f`
 * formatting and `time.Parse`.  They are passed around as one record of
 * total functions, so every statement about the adapters holds for any
 * implementation of them.  Also the two shapes exchanged with `net/http`
 * and `net/url`: a request, and the mutable `url.Values` map.
 */
module Platform {
  import opened Results

  /** `url.Values`: each key maps to the list of values added under it. */
  type Form = map<string, seq<string>>

  datatype Primitives = Primitives(
    hmacSha256: (string, string) -> seq<bv8>,   // (secret, message)
    hmacSha512: (string, string) -> seq<bv8>,   // (secret, message)
    hexEncode: seq<bv8> -> string,
    encodeForm: Form -> string,                 // url.Values.Encode
    formatFloat: real -> string,                // fmt.Sprintf("%f", x)
    parseExecDate: string -> Result<int>        // time.Parse with the layout "2006-01-02T15:04:05.000", in Unix milliseconds
  )

  /** An HTTP request as handed to the client. */
  datatype HttpRequest = HttpRequest(verb: string, url: string, headers: seq<(string, string)>, body: string)

  /** The first value of header `name`, as the receiving server reads it. */
  function Header(req: HttpRequest, name: string): Option<string> {
    HeaderIn(req.headers, name)
  }

  function HeaderIn(headers: seq<(string, string)>, name: string): Option<string> {
    if headers == [] then None
    else if headers[0].0 == name then Some(headers[0].1)
    else HeaderIn(headers[1..], name)
  }

  /** The values of `key`, empty when it was never added. */
  function ValuesOf(form: Form, key: string): seq<string> {
    if key in form then form[key] else []
  }

  /** `Values.Add`: appends `value` to the list under `key`. */
  function Added(form: Form, key: string, value: string): Form {
    form[key := ValuesOf(form, key) + [value]]
  }

  /** Adding appends to the values of its own key only, and creates the key when it is new. */
  lemma AddedValues(form: Form, key: string, value: string)
    ensures Added(form, key, value).Keys == form.Keys + {key}
    ensures ValuesOf(Added(form, key, value), key) == ValuesOf(form, key) + [value]
    ensures forall k :: k != key ==> ValuesOf(Added(form, key, value), k) == ValuesOf(form, k)
  {
  }

  /** A `url.Values` map: Go maps are references, so additions made by a callee are seen by the caller. */
  class Values {
    var entries: Form

    constructor ()
      ensures entries == map[]
    {
      entries := map[];
    }

    method Add(key: string, value: string)
      modifies this
      ensures entries == Added(old(entries), key, value)
    {
      entries := Added(entries, key, value);
    }
  }
}
