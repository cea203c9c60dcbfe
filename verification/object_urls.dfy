/** The browser's object-URL store (`URL.createObjectURL`): every blob handed
    to it gets a URL that was never issued before. Actual URLs carry a random
    UUID; here the id is a counter, which is enough to make freshness provable. */
module ObjectUrls {
  import opened JsString

  /** Where a blob's bytes came from. Base64 text is kept undecoded. */
  datatype BlobSource = Base64(text: string) | Bytes(data: seq<bv8>)

  /** A `Blob` with its MIME `type`. */
  datatype Blob = Blob(source: BlobSource, mediaType: string)

  /** The decimal digits of `n`, most significant first. */
  function Decimal(n: nat): (s: string)
    ensures |s| >= 1 && (|s| == 1 <==> n < 10)
    ensures forall k :: 0 <= k < |s| ==> '0' <= s[k] <= '9'
  {
    if n < 10 then [Digit(n)] else Decimal(n / 10) + [Digit(n % 10)]
  }

  function Digit(d: nat): (c: char)
    requires d < 10
    ensures '0' <= c <= '9' && c as int - '0' as int == d
  {
    ('0' as int + d) as char
  }

  /** Distinct numbers have distinct decimal representations. */
  lemma {:induction false} DecimalInjective(a: nat, b: nat)
    requires Decimal(a) == Decimal(b)
    ensures a == b
  {
    if a >= 10 {
      var da, db := Decimal(a), Decimal(b);
      assert b >= 10;
      assert da[|da| - 1] == Digit(a % 10);
      assert db[|db| - 1] == Digit(b % 10);
      assert da[..|da| - 1] == Decimal(a / 10);
      assert db[..|db| - 1] == Decimal(b / 10);
      DecimalInjective(a / 10, b / 10);
    } else {
      assert Decimal(a)[0] == Digit(a);
    }
  }

  /** The URL issued for the `n`th blob. */
  function BlobUrl(n: nat): (u: string)
    ensures StartsWith(u, "blob:") && u != ""
  {
    "blob:" + Decimal(n)
  }

  lemma BlobUrlInjective(a: nat, b: nat)
    requires BlobUrl(a) == BlobUrl(b)
    ensures a == b
  {
    assert BlobUrl(a)[5..] == Decimal(a);
    assert BlobUrl(b)[5..] == Decimal(b);
    DecimalInjective(a, b);
  }

  class BlobRegistry {
    /** The blobs registered so far; the `i`th is reachable as `BlobUrl(i)`. */
    var blobs: seq<Blob>

    /** Every URL issued so far. */
    ghost function Issued(): set<string>
      reads this
    {
      set i | 0 <= i < |blobs| :: BlobUrl(i)
    }

    constructor ()
      ensures blobs == [] && Issued() == {}
    {
      blobs := [];
    }

    /** `URL.createObjectURL(blob)`: registers `blob` under a URL never
        issued before. */
    method CreateObjectUrl(blob: Blob) returns (url: string)
      modifies this
      ensures url !in old(Issued())
      ensures Issued() == old(Issued()) + {url}
      ensures blobs == old(blobs) + [blob]
      ensures url == BlobUrl(|old(blobs)|) && StartsWith(url, "blob:")
    {
      url := BlobUrl(|blobs|);
      assert url !in Issued() by {
        if url in Issued() {
          var i :| 0 <= i < |blobs| && BlobUrl(i) == url;
          BlobUrlInjective(i, |blobs|);
        }
      }
      blobs := blobs + [blob];
      assert Issued() == old(Issued()) + {url} by {
        forall u | u in Issued() ensures u in old(Issued()) + {url} {
          var i :| 0 <= i < |blobs| && BlobUrl(i) == u;
          if i < |old(blobs)| { assert u in old(Issued()); }
        }
        forall u | u in old(Issued()) ensures u in Issued() {
          var i :| 0 <= i < |old(blobs)| && BlobUrl(i) == u;
        }
      }
    }
  }
}
