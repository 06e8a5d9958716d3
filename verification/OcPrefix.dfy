/** The prefix entries of an OpenConfig key-value list, and the values of an entry. */
module OcPrefix {
  import opened Wire
  import opened TelemetryData

  const PREFIX_KEY := Ascii("__prefix__")
  const START_DELIM := Ascii("[name='")
  const END_DELIM := Ascii("']/")

  /** The text that oc_set_prefix_no_attr puts under the prefix key. */
  function PrefixText(base: bytes, name: bytes): bytes { base + START_DELIM + name + END_DELIM }

  /** Taking the text apart again. */
  function NameInPrefix(base: bytes, text: bytes): bytes
  {
    var front := |base| + |START_DELIM|;
    if front + |END_DELIM| <= |text| then text[front..|text| - |END_DELIM|] else []
  }

  /** Any name can be put into a prefix, even one with quotes, brackets or slashes. */
  lemma PrefixInvertible(base: bytes, name: bytes)
    ensures NameInPrefix(base, PrefixText(base, name)) == name
  {
    var text := PrefixText(base, name);
    assert text == (base + START_DELIM) + (name + END_DELIM);
  }

  /** str_value() and int_value(): the default if another member of the oneof is set. */
  function StrOf(kv: KeyValue): bytes { if kv.value.StrValue? then kv.value.str else [] }
  function IntOf(kv: KeyValue): int64 { if kv.value.IntValue? then kv.value.i else 0 }
}
