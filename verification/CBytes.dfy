/** Bytes, zero-padded grid rows and the C view of a row up to its first NUL. */
module CBytes {

  type byte = b: nat | b < 256

  function Zeros(n: nat): (z: seq<byte>)
    ensures |z| == n
  {
    seq(n, _ => 0)
  }

  /** A row of n bytes that starts with data and is zero everywhere else. */
  function Padded(data: seq<byte>, n: nat): (row: seq<byte>)
    requires |data| <= n
    ensures |row| == n
  {
    data + Zeros(n - |data|)
  }

  /** What `strlen` and a copy see of a row: the bytes before its first NUL. */
  function CString(row: seq<byte>): (s: seq<byte>)
    ensures 0 !in s
    ensures s <= row
    ensures |s| < |row| ==> row[|s|] == 0
  {
    if row == [] || row[0] == 0 then [] else [row[0]] + CString(row[1..])
  }

  /** The three facts on CString's contract pin it down. */
  lemma CStringUnique(row: seq<byte>, s: seq<byte>)
    requires 0 !in s && s <= row
    requires |s| < |row| ==> row[|s|] == 0
    ensures CString(row) == s
  {
    var c := CString(row);
    assert |c| == |s|;
  }

  /** Storing a string in a longer zero-filled row and reading it back as a C string
      gives the string up to its first NUL. */
  lemma PaddedReadsBack(data: seq<byte>, n: nat)
    requires |data| < n
    ensures CString(Padded(data, n)) == CString(data)
    ensures Padded(data, n)[n - 1] == 0
  {
    CStringUnique(Padded(data, n), CString(data));
  }

  /** The read-back is the whole string exactly when it holds no NUL. */
  lemma ReadsBackWhole(data: seq<byte>, n: nat)
    requires |data| < n
    ensures CString(Padded(data, n)) == data <==> 0 !in data
  {
    PaddedReadsBack(data, n);
    if 0 !in data {
      CStringUnique(data, data);
    }
  }

  lemma CStringIdempotent(s: seq<byte>)
    ensures CString(CString(s)) == CString(s)
  {
    CStringUnique(CString(s), CString(s));
  }

  /** Writing a prefix over a buffer in place. */
  function Overwritten(buf: seq<byte>, prefix: seq<byte>): (r: seq<byte>)
    requires |prefix| <= |buf|
    ensures |r| == |buf|
    ensures prefix <= r
    ensures r[|prefix|..] == buf[|prefix|..]
  {
    prefix + buf[|prefix|..]
  }
}
