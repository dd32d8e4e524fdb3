/** The on-disk shard format shared by the dictionary build (dictprocess.py) and the
    lookup (ingram.py): one line `key<TAB>count` per entry, in a file named after the
    first three characters of the key. */
module Shard {

  /** One shard line. Keys are `clean_string` outputs, so they hold neither a tab nor
      a newline and a line splits back into exactly this key and count. */
  datatype Entry = Entry(key: string, count: int)

  function DigitsOf(n: nat): (r: string)
    ensures |r| > 0
  {
    if n < 10 then [('0' as int + n) as char]
    else DigitsOf(n / 10) + [('0' as int + n % 10) as char]
  }

  /** Python's `str(n)` for an integer. */
  function IntText(n: int): string {
    if n < 0 then "-" + DigitsOf(-n) else DigitsOf(n)
  }

  /** The line as written to the file: key, tab, count, newline. */
  function LineText(e: Entry): string {
    e.key + "\t" + IntText(e.count) + "\n"
  }

  /** The file a key is appended to (dictprocess.py:143-145): `key[0:3]`, padded on
      the right with `_` to three characters (`ljust`), then every space replaced by
      `_`. */
  function ShardName(key: string): (name: string)
    ensures |name| == 3 && ' ' !in name
  {
    var head := if |key| < 3 then key else key[..3];
    var padded := head + seq(3 - |head|, _ => '_');
    seq(3, i requires 0 <= i < 3 => if padded[i] == ' ' then '_' else padded[i])
  }
}
