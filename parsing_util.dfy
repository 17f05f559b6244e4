/** ParsingUtil: file-extension extraction, the raw newline counters used when
    a file cannot be read as text, and the charset fallback. */
module ParsingUtil {
  import opened JavaString

  /** A Java byte; only its value 10 ('\n') matters here. */
  type Byte = bv8

  const NEWLINE: Byte := 10

  /** Size of the buffer the large-file counter reads into. */
  const BUFFER_SIZE: nat := 262144

  /** The text after the last '.' of a file name; "" when there is no '.'. */
  function FileExtension(fileName: string): (r: string)
    ensures '.' !in r
    ensures '.' !in fileName ==> r == ""
    ensures '.' in fileName ==> |r| < |fileName| && fileName == fileName[..|fileName| - |r| - 1] + "." + r
    ensures r == "" <==> '.' !in fileName || fileName[|fileName| - 1] == '.'
  {
    var dotIndex := LastIndexOf(fileName, '.');
    if dotIndex == -1 then ""
    else
      var r := fileName[dotIndex + 1..];
      assert fileName == fileName[..dotIndex] + "." + r;
      r
  }

  /** The number of newline bytes in bytes (the specification of both counters). */
  function NewlineCount(bytes: seq<Byte>): nat
    decreases |bytes|
  {
    if |bytes| == 0 then 0
    else NewlineCount(bytes[..|bytes| - 1]) + (if bytes[|bytes| - 1] == NEWLINE then 1 else 0)
  }

  /** There are never more newlines than bytes; exactly as many only when every byte is one. */
  lemma {:induction false} NewlineCountBound(bytes: seq<Byte>)
    ensures NewlineCount(bytes) <= |bytes|
    ensures NewlineCount(bytes) == |bytes| <==> forall k :: 0 <= k < |bytes| ==> bytes[k] == NEWLINE
    decreases |bytes|
  {
    if |bytes| > 0 {
      var init := bytes[..|bytes| - 1];
      NewlineCountBound(init);
      if NewlineCount(bytes) == |bytes| {
        assert NewlineCount(init) == |init| && bytes[|bytes| - 1] == NEWLINE;
        forall k | 0 <= k < |bytes| ensures bytes[k] == NEWLINE {
          if k < |init| { assert bytes[k] == init[k]; }
        }
      }
      if forall k :: 0 <= k < |bytes| ==> bytes[k] == NEWLINE {
        assert forall k :: 0 <= k < |init| ==> init[k] == bytes[k];
      }
    }
  }

  /** The count is zero exactly when no byte is a newline. */
  lemma {:induction false} NewlineCountZero(bytes: seq<Byte>)
    ensures NewlineCount(bytes) == 0 <==> forall k :: 0 <= k < |bytes| ==> bytes[k] != NEWLINE
    decreases |bytes|
  {
    if |bytes| > 0 {
      var init := bytes[..|bytes| - 1];
      NewlineCountZero(init);
      assert forall k :: 0 <= k < |init| ==> init[k] == bytes[k];
    }
  }

  /** Counting newlines is additive over concatenation, so a file may be
      counted piece by piece. */
  lemma {:induction false} NewlineCountAppend(a: seq<Byte>, b: seq<Byte>)
    ensures NewlineCount(a + b) == NewlineCount(a) + NewlineCount(b)
    decreases |b|
  {
    if |b| > 0 {
      var b' := b[..|b| - 1];
      assert (a + b)[..|a + b| - 1] == a + b';
      assert (a + b)[|a + b| - 1] == b[|b| - 1];
      NewlineCountAppend(a, b');
    } else {
      assert a + b == a;
    }
  }

  /** ParsingUtil.parseSmallNonUTFFile on the bytes Files.readAllBytes returned. */
  method ParseSmallNonUTFFile(bytes: seq<Byte>) returns (lines: int)
    ensures lines == NewlineCount(bytes)
    ensures 0 <= lines <= |bytes|
  {
    lines := 0;
    for i := 0 to |bytes|
      invariant lines == NewlineCount(bytes[..i])
    {
      assert bytes[..i + 1][..i] == bytes[..i];
      if bytes[i] == NEWLINE {
        lines := lines + 1;
      }
    }
    assert bytes[..|bytes|] == bytes;
    NewlineCountBound(bytes);
  }

  /** The concatenation of the successive reads of a stream. */
  function Flatten(chunks: seq<seq<Byte>>): seq<Byte>
    decreases |chunks|
  {
    if |chunks| == 0 then [] else Flatten(chunks[..|chunks| - 1]) + chunks[|chunks| - 1]
  }

  /** One call of InputStream.read(buffer): the bytes delivered land at the
      front of the buffer and their number is returned. */
  method ReadInto(buffer: array<Byte>, delivered: seq<Byte>) returns (bytesRead: int)
    requires |delivered| <= buffer.Length
    modifies buffer
    ensures bytesRead == |delivered| && buffer[..bytesRead] == delivered
  {
    forall k | 0 <= k < |delivered| {
      buffer[k] := delivered[k];
    }
    bytesRead := |delivered|;
  }

  /** ParsingUtil.parseLargeNonUTFFile: the stream is read into one reused
      262144-byte buffer; chunks lists what each successive read delivered. */
  method ParseLargeNonUTFFile(chunks: seq<seq<Byte>>) returns (lines: int)
    requires forall k :: 0 <= k < |chunks| ==> |chunks[k]| <= BUFFER_SIZE
    ensures lines == NewlineCount(Flatten(chunks))
  {
    lines := 0;
    var buffer := new Byte[BUFFER_SIZE];
    var r := 0;
    while r < |chunks|
      invariant 0 <= r <= |chunks|
      invariant lines == NewlineCount(Flatten(chunks[..r]))
    {
      var bytesRead := ReadInto(buffer, chunks[r]);
      ghost var before := lines;
      for i := 0 to bytesRead
        invariant lines == before + NewlineCount(buffer[..i])
      {
        assert buffer[..i + 1][..i] == buffer[..i];
        if buffer[i] == NEWLINE {
          lines := lines + 1;
        }
      }
      assert buffer[..bytesRead] == chunks[r];
      assert chunks[..r + 1][..r] == chunks[..r];
      NewlineCountAppend(Flatten(chunks[..r]), chunks[r]);
      r := r + 1;
    }
    assert chunks[..r] == chunks;
  }

  /** The successive reads of a stream over bytes that always fills the whole buffer. */
  function Chunked(bytes: seq<Byte>, size: nat): (chunks: seq<seq<Byte>>)
    requires size > 0
    ensures forall k :: 0 <= k < |chunks| ==> 0 < |chunks[k]| <= size
    decreases |bytes|
  {
    if |bytes| == 0 then []
    else if |bytes| <= size then [bytes]
    else [bytes[..size]] + Chunked(bytes[size..], size)
  }

  lemma {:induction false} FlattenPrepend(x: seq<Byte>, chunks: seq<seq<Byte>>)
    ensures Flatten([x] + chunks) == x + Flatten(chunks)
    decreases |chunks|
  {
    if |chunks| > 0 {
      assert ([x] + chunks)[..|chunks|] == [x] + chunks[..|chunks| - 1];
      FlattenPrepend(x, chunks[..|chunks| - 1]);
    }
  }

  /** Reading in chunks loses and repeats nothing. */
  lemma {:induction false} FlattenChunked(bytes: seq<Byte>, size: nat)
    requires size > 0
    ensures Flatten(Chunked(bytes, size)) == bytes
    decreases |bytes|
  {
    if |bytes| > size {
      FlattenChunked(bytes[size..], size);
      FlattenPrepend(bytes[..size], Chunked(bytes[size..], size));
      assert bytes == bytes[..size] + bytes[size..];
    } else if |bytes| > 0 {
      assert Flatten([bytes]) == Flatten([]) + bytes;
    }
  }

  /** Counting read by read gives the same answer as counting the whole file at once. */
  lemma LargeAndSmallAgree(bytes: seq<Byte>)
    ensures NewlineCount(Flatten(Chunked(bytes, BUFFER_SIZE))) == NewlineCount(bytes)
  {
    FlattenChunked(bytes, BUFFER_SIZE);
  }

  /** A charset, named; Charset.forName's lookup is abstracted by the set of supported names. */
  datatype Charset = Charset(name: string)

  /** ParsingUtil.getCharsetFallback: the named charset when the platform
      supports it, the fallback otherwise. */
  function CharsetFallback(charsetName: string, fallbackCharset: Charset, supported: set<string>): (r: Charset)
    ensures charsetName in supported ==> r.name == charsetName
    ensures charsetName !in supported ==> r == fallbackCharset
  {
    if charsetName in supported then Charset(charsetName) else fallbackCharset
  }
}
