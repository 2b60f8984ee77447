/**
 The static tables of both header codecs (qpack.cpp and example/http2/src/codec.cpp;
 Appendix A of RFC 9204 and of RFC 7541), and the round trips of the codecs with
 them and with the program's Huffman table.
 */
module StaticTables {
  import opened Bytes
  import HuffTable
  import opened HeaderStrings
  import Q = Qpack
  import H = Hpack

  const ONE_YEAR := "max-age=31536000"

  const CONTENT_SECURITY_POLICY := "script-src 'none'; object-src 'none'; " + "base-uri 'none'"

  /** The bytes of a text of single-byte characters. */
  function Ascii(s: string): Text { seq(|s|, i requires 0 <= i < |s| => if s[i] as int < 256 then s[i] as int else 0) }

  /** No separator in a field, so that its key identifies it. */
  predicate Clean(f: Field) { Q.SEPARATOR !in f.name && Q.SEPARATOR !in f.value }

  predicate AllClean(fs: seq<Field>) { forall i :: 0 <= i < |fs| ==> Clean(fs[i]) }

  predicate AllNamed(fs: seq<Field>) { forall i :: 0 <= i < |fs| ==> fs[i].name != [] }

  predicate Plain(s: string) { '\U{1f}' !in s }

  function Line(name: string, value: string): (f: Field)
    ensures name != "" ==> f.name != []
  {
    Field(Ascii(name), Ascii(value))
  }

  /** An entry of the QPACK table. */
  function Entry(name: string, value: string): (f: Field)
    requires Plain(name) && Plain(value)
    ensures Clean(f)
  {
    AsciiClean(name);
    AsciiClean(value);
    Line(name, value)
  }

  lemma AsciiClean(s: string)
    requires Plain(s)
    ensures Q.SEPARATOR !in Ascii(s)
  {
    forall i | 0 <= i < |s| ensures Ascii(s)[i] != Q.SEPARATOR { assert s[i] in s; }
  }

  // --------------------------------------------------------------------------
  // QPACK
  // --------------------------------------------------------------------------

  function Qpack0(): (t: seq<Field>)
    ensures |t| == 5 && AllClean(t)
  {
    hide Ascii, Clean;
    [Entry(":authority", ""),
     Entry(":path", "/"),
     Entry("age", "0"),
     Entry("content-disposition", ""),
     Entry("content-length", "0")]
  }

  function Qpack1(): (t: seq<Field>)
    ensures |t| == 5 && AllClean(t)
  {
    hide Ascii, Clean;
    [Entry("cookie", ""),
     Entry("date", ""),
     Entry("etag", ""),
     Entry("if-modified-since", ""),
     Entry("if-none-match", "")]
  }

  function Qpack2(): (t: seq<Field>)
    ensures |t| == 5 && AllClean(t)
  {
    hide Ascii, Clean;
    [Entry("last-modified", ""),
     Entry("link", ""),
     Entry("location", ""),
     Entry("referer", ""),
     Entry("set-cookie", "")]
  }

  function Qpack3(): (t: seq<Field>)
    ensures |t| == 5 && AllClean(t)
  {
    hide Ascii, Clean;
    [Entry(":method", "CONNECT"),
     Entry(":method", "DELETE"),
     Entry(":method", "GET"),
     Entry(":method", "HEAD"),
     Entry(":method", "OPTIONS")]
  }

  function Qpack4(): (t: seq<Field>)
    ensures |t| == 5 && AllClean(t)
  {
    hide Ascii, Clean;
    [Entry(":method", "POST"),
     Entry(":method", "PUT"),
     Entry(":scheme", "http"),
     Entry(":scheme", "https"),
     Entry(":status", "103")]
  }

  function Qpack5(): (t: seq<Field>)
    ensures |t| == 5 && AllClean(t)
  {
    hide Ascii, Clean;
    [Entry(":status", "200"),
     Entry(":status", "304"),
     Entry(":status", "404"),
     Entry(":status", "503"),
     Entry("accept", "*/*")]
  }

  function Qpack6(): (t: seq<Field>)
    ensures |t| == 3 && AllClean(t)
  {
    hide Ascii, Clean;
    [Entry("accept", "application/dns-message"),
     Entry("accept-encoding", "gzip, deflate, br"),
     Entry("accept-ranges", "bytes")]
  }

  function Qpack7(): (t: seq<Field>)
    ensures |t| == 1 && AllClean(t)
  {
    hide Ascii, Clean;
    [Entry("access-control-allow-headers", "cache-control")]
  }

  function Qpack8(): (t: seq<Field>)
    ensures |t| == 1 && AllClean(t)
  {
    hide Ascii, Clean;
    [Entry("access-control-allow-headers", "content-type")]
  }

  function Qpack9(): (t: seq<Field>)
    ensures |t| == 3 && AllClean(t)
  {
    hide Ascii, Clean;
    [Entry("access-control-allow-origin", "*"),
     Entry("cache-control", "max-age=0"),
     Entry("cache-control", "max-age=2592000")]
  }

  function Qpack10(): (t: seq<Field>)
    ensures |t| == 4 && AllClean(t)
  {
    hide Ascii, Clean;
    [Entry("cache-control", "max-age=604800"),
     Entry("cache-control", "no-cache"),
     Entry("cache-control", "no-store"),
     Entry("cache-control", "public, max-age=31536000")]
  }

  function Qpack11(): (t: seq<Field>)
    ensures |t| == 3 && AllClean(t)
  {
    hide Ascii, Clean;
    [Entry("content-encoding", "br"),
     Entry("content-encoding", "gzip"),
     Entry("content-type", "application/dns-message")]
  }

  function Qpack12(): (t: seq<Field>)
    ensures |t| == 2 && AllClean(t)
  {
    hide Ascii, Clean;
    [Entry("content-type", "application/javascript"),
     Entry("content-type", "application/json")]
  }

  function Qpack13(): (t: seq<Field>)
    ensures |t| == 2 && AllClean(t)
  {
    hide Ascii, Clean;
    [Entry("content-type", "application/x-www-form-urlencoded"),
     Entry("content-type", "image/gif")]
  }

  function Qpack14(): (t: seq<Field>)
    ensures |t| == 4 && AllClean(t)
  {
    hide Ascii, Clean;
    [Entry("content-type", "image/jpeg"),
     Entry("content-type", "image/png"),
     Entry("content-type", "text/css"),
     Entry("content-type", "text/html; charset=utf-8")]
  }

  function Qpack15(): (t: seq<Field>)
    ensures |t| == 3 && AllClean(t)
  {
    hide Ascii, Clean;
    [Entry("content-type", "text/plain"),
     Entry("content-type", "text/plain;charset=utf-8"),
     Entry("range", "bytes=0-")]
  }

  function Qpack16(): (t: seq<Field>)
    ensures |t| == 1 && AllClean(t)
  {
    hide Ascii, Clean;
    [Entry("strict-transport-security", ONE_YEAR)]
  }

  function Qpack17(): (t: seq<Field>)
    ensures |t| == 1 && AllClean(t)
  {
    hide Ascii, Clean;
    [Entry("strict-transport-security", ONE_YEAR + "; includesubdomains")]
  }

  function Qpack18(): (t: seq<Field>)
    ensures |t| == 1 && AllClean(t)
  {
    hide Ascii, Clean;
    [Entry("strict-transport-security", ONE_YEAR + "; includesubdomains; preload")]
  }

  function Qpack19(): (t: seq<Field>)
    ensures |t| == 5 && AllClean(t)
  {
    hide Ascii, Clean;
    [Entry("vary", "accept-encoding"),
     Entry("vary", "origin"),
     Entry("x-content-type-options", "nosniff"),
     Entry("x-xss-protection", "1; mode=block"),
     Entry(":status", "100")]
  }

  function Qpack20(): (t: seq<Field>)
    ensures |t| == 5 && AllClean(t)
  {
    hide Ascii, Clean;
    [Entry(":status", "204"),
     Entry(":status", "206"),
     Entry(":status", "302"),
     Entry(":status", "400"),
     Entry(":status", "403")]
  }

  function Qpack21(): (t: seq<Field>)
    ensures |t| == 5 && AllClean(t)
  {
    hide Ascii, Clean;
    [Entry(":status", "421"),
     Entry(":status", "425"),
     Entry(":status", "500"),
     Entry("accept-language", ""),
     Entry("access-control-allow-credentials", "FALSE")]
  }

  function Qpack22(): (t: seq<Field>)
    ensures |t| == 1 && AllClean(t)
  {
    hide Ascii, Clean;
    [Entry("access-control-allow-credentials", "TRUE")]
  }

  function Qpack23(): (t: seq<Field>)
    ensures |t| == 2 && AllClean(t)
  {
    hide Ascii, Clean;
    [Entry("access-control-allow-headers", "*"),
     Entry("access-control-allow-methods", "get")]
  }

  function Qpack24(): (t: seq<Field>)
    ensures |t| == 1 && AllClean(t)
  {
    hide Ascii, Clean;
    [Entry("access-control-allow-methods", "get, post, options")]
  }

  function Qpack25(): (t: seq<Field>)
    ensures |t| == 1 && AllClean(t)
  {
    hide Ascii, Clean;
    [Entry("access-control-allow-methods", "options")]
  }

  function Qpack26(): (t: seq<Field>)
    ensures |t| == 1 && AllClean(t)
  {
    hide Ascii, Clean;
    [Entry("access-control-expose-headers", "content-length")]
  }

  function Qpack27(): (t: seq<Field>)
    ensures |t| == 1 && AllClean(t)
  {
    hide Ascii, Clean;
    [Entry("access-control-request-headers", "content-type")]
  }

  function Qpack28(): (t: seq<Field>)
    ensures |t| == 1 && AllClean(t)
  {
    hide Ascii, Clean;
    [Entry("access-control-request-method", "get")]
  }

  function Qpack29(): (t: seq<Field>)
    ensures |t| == 3 && AllClean(t)
  {
    hide Ascii, Clean;
    [Entry("access-control-request-method", "post"),
     Entry("alt-svc", "clear"),
     Entry("authorization", "")]
  }

  function Qpack30(): (t: seq<Field>)
    ensures |t| == 1 && AllClean(t)
  {
    hide Ascii, Clean;
    [Entry("content-security-policy", CONTENT_SECURITY_POLICY)]
  }

  function Qpack31(): (t: seq<Field>)
    ensures |t| == 5 && AllClean(t)
  {
    hide Ascii, Clean;
    [Entry("early-data", "1"),
     Entry("expect-ct", ""),
     Entry("forwarded", ""),
     Entry("if-range", ""),
     Entry("origin", "")]
  }

  function Qpack32(): (t: seq<Field>)
    ensures |t| == 5 && AllClean(t)
  {
    hide Ascii, Clean;
    [Entry("purpose", "prefetch"),
     Entry("server", ""),
     Entry("timing-allow-origin", "*"),
     Entry("upgrade-insecure-requests", "1"),
     Entry("user-agent", "")]
  }

  function Qpack33(): (t: seq<Field>)
    ensures |t| == 3 && AllClean(t)
  {
    hide Ascii, Clean;
    [Entry("x-forwarded-for", ""),
     Entry("x-frame-options", "deny"),
     Entry("x-frame-options", "sameorigin")]
  }

  function QpackTable(): StaticTable {
    Qpack0() + Qpack1() + Qpack2() + Qpack3() + Qpack4() + Qpack5() + Qpack6()
    + Qpack7() + Qpack8() + Qpack9() + Qpack10() + Qpack11() + Qpack12() + Qpack13()
    + Qpack14() + Qpack15() + Qpack16() + Qpack17() + Qpack18() + Qpack19() + Qpack20()
    + Qpack21() + Qpack22() + Qpack23() + Qpack24() + Qpack25() + Qpack26() + Qpack27()
    + Qpack28() + Qpack29() + Qpack30() + Qpack31() + Qpack32() + Qpack33()
  }

  lemma QpackValid()
    ensures Q.ValidStatic(QpackTable())
  {
    hide Qpack0, Qpack1, Qpack2, Qpack3, Qpack4, Qpack5, Qpack6, Qpack7, Qpack8, Qpack9, Qpack10,
         Qpack11, Qpack12, Qpack13, Qpack14, Qpack15, Qpack16, Qpack17, Qpack18, Qpack19, Qpack20, Qpack21,
         Qpack22, Qpack23, Qpack24, Qpack25, Qpack26, Qpack27, Qpack28, Qpack29, Qpack30, Qpack31, Qpack32,
         Qpack33, Clean;
    SameClean(QpackTable());
  }

  lemma SameClean(tbl: StaticTable)
    requires |tbl| == 99 && AllClean(tbl)
    ensures Q.ValidStatic(tbl)
  {
    assert forall i :: 0 <= i < |tbl| ==> Clean(tbl[i]);
  }

  // --------------------------------------------------------------------------
  // HPACK
  // --------------------------------------------------------------------------

  function Hpack0(): (t: seq<Field>)
    ensures |t| == 16 && AllNamed(t)
  {
    [Line(":authority", ""),
     Line(":method", "GET"),
     Line(":method", "POST"),
     Line(":path", "/"),
     Line(":path", "/index.html"),
     Line(":scheme", "http"),
     Line(":scheme", "https"),
     Line(":status", "200"),
     Line(":status", "204"),
     Line(":status", "206"),
     Line(":status", "304"),
     Line(":status", "400"),
     Line(":status", "404"),
     Line(":status", "500"),
     Line("accept-charset", ""),
     Line("accept-encoding", "gzip, deflate")]
  }

  function Hpack1(): (t: seq<Field>)
    ensures |t| == 16 && AllNamed(t)
  {
    [Line("accept-language", ""),
     Line("accept-ranges", ""),
     Line("accept", ""),
     Line("access-control-allow-origin", ""),
     Line("age", ""),
     Line("allow", ""),
     Line("authorization", ""),
     Line("cache-control", ""),
     Line("content-disposition", ""),
     Line("content-encoding", ""),
     Line("content-language", ""),
     Line("content-length", ""),
     Line("content-location", ""),
     Line("content-range", ""),
     Line("content-type", ""),
     Line("cookie", "")]
  }

  function Hpack2(): (t: seq<Field>)
    ensures |t| == 16 && AllNamed(t)
  {
    [Line("date", ""),
     Line("etag", ""),
     Line("expect", ""),
     Line("expires", ""),
     Line("from", ""),
     Line("host", ""),
     Line("if-match", ""),
     Line("if-modified-since", ""),
     Line("if-none-match", ""),
     Line("if-range", ""),
     Line("if-unmodified-since", ""),
     Line("last-modified", ""),
     Line("link", ""),
     Line("location", ""),
     Line("max-forwards", ""),
     Line("proxy-authenticate", "")]
  }

  function Hpack3(): (t: seq<Field>)
    ensures |t| == 13 && AllNamed(t)
  {
    [Line("proxy-authorization", ""),
     Line("range", ""),
     Line("referer", ""),
     Line("refresh", ""),
     Line("retry-after", ""),
     Line("server", ""),
     Line("set-cookie", ""),
     Line("strict-transport-security", ""),
     Line("transfer-encoding", ""),
     Line("user-agent", ""),
     Line("vary", ""),
     Line("via", ""),
     Line("www-authenticate", "")]
  }

  /** Entry 0 is a placeholder. */
  function HpackTable(): StaticTable {
    [Line("", "")] + Hpack0() + Hpack1() + Hpack2() + Hpack3()
  }

  lemma HpackValid()
    ensures H.NamedStatic(HpackTable())
  {
    hide Hpack0, Hpack1, Hpack2, Hpack3, Line;
    var rest := Hpack0() + Hpack1() + Hpack2() + Hpack3();
    assert |rest| == 61 && AllNamed(rest);
    assert HpackTable() == [Line("", "")] + rest;
  }

  // --------------------------------------------------------------------------
  // The codecs of the program
  // --------------------------------------------------------------------------

  /** With the program's own tables: decoding the encoding of any header list gives that list. */
  lemma QpackRoundTrip(x: Q.StaticIndex, fs: seq<Field>)
    requires Q.Indexes(QpackTable(), x)
    requires forall i :: 0 <= i < |fs| ==> Q.FieldFits(HuffTable.TheTable(), fs[i])
    ensures Q.Decoding(HuffTable.TheTable(), QpackTable(), Q.Encoding(HuffTable.TheTable(), x, fs)) == Some(fs)
  {
    hide *;
    HuffTable.TableValid();
    QpackValid();
    Q.RoundTrip(HuffTable.TheTable(), QpackTable(), x, fs);
  }

  /** With the program's own tables: decoding the encoding of a header map gives the map, if and only if it has no empty name. */
  lemma HpackRoundTrip(h: H.Headers, fs: seq<Field>)
    requires H.Lists(fs, h)
    requires forall i :: 0 <= i < |fs| ==> H.Fits(fs[i])
    ensures H.DecodeInto(HuffTable.TheTable(), HpackTable(), map[], H.EmitAll(HpackTable(), fs)) == h <==> [] !in h
  {
    hide *;
    HpackValid();
    H.RoundTrip(HuffTable.TheTable(), HpackTable(), h, fs);
  }
}
