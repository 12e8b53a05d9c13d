/** `calc_hash_rows`, identical in python/renderer_compositor_main.py and
    python/renderer_final.py: the first eight hex digits of the SHA-1 of the
    rows, sorted, written in decimal and joined with '-'. The digest itself is
    a parameter. */
module RowsHash {
  import opened Strings
  import opened Sorting

  /** `[str(x) for x in xs]`. */
  function Texts(xs: seq<int>): (r: seq<string>)
    ensures |r| == |xs| && forall i :: 0 <= i < |xs| ==> r[i] == IntToStr(xs[i])
  {
    seq(|xs|, i requires 0 <= i < |xs| => IntToStr(xs[i]))
  }

  /** `'-'.join([str(x) for x in sorted(rows)])`, the text that is hashed. */
  function RowsText(rows: seq<int>): string {
    Join(Texts(SortInts(rows)), '-')
  }

  /** `h[:8]`, which is all of `h` when it is shorter. */
  function Prefix8(h: string): (r: string)
    ensures |r| == if |h| < 8 then |h| else 8
    ensures StartsWith(h, r)
  {
    if |h| <= 8 then h else h[..8]
  }

  /** The first eight characters of the SHA-1 hex digest of the rows text. */
  function CalcHashRows(sha1Hex: string -> string, rows: seq<int>): (r: string)
    ensures |r| <= 8 && StartsWith(sha1Hex(RowsText(rows)), r)
    ensures |sha1Hex(RowsText(rows))| >= 8 ==> |r| == 8
  {
    Prefix8(sha1Hex(RowsText(rows)))
  }

  /** The hashed text depends only on which rows there are and how often, not
      on the order they arrive in. */
  lemma RowsTextPermutation(a: seq<int>, b: seq<int>)
    requires multiset(a) == multiset(b)
    ensures RowsText(a) == RowsText(b)
  {
    SortIntsPermutation(a, b);
  }

  lemma CalcHashRowsPermutation(sha1Hex: string -> string, a: seq<int>, b: seq<int>)
    requires multiset(a) == multiset(b)
    ensures CalcHashRows(sha1Hex, a) == CalcHashRows(sha1Hex, b)
  {
    RowsTextPermutation(a, b);
  }

  /** For rows already in ascending order the text is just the rows joined. */
  lemma RowsTextSorted(rows: seq<int>)
    requires Sorted(rows)
    ensures RowsText(rows) == Join(Texts(rows), '-')
  {
    SortIntsSorted(rows);
  }
}
