/** Texts, given by their UTF-8 bytes, and the limits the protocol puts on them. */
module Texts {
  import opened Bytes

  /** What the standard library and the emoji tables say of a text, given by its bytes. */
  datatype TextRules = TextRules(utf8: bytes -> bool, scalars: bytes -> nat, emoji: bytes -> bool)

  datatype TextLimit = TextLimit(maxBytes: nat, maxScalars: nat, nonEmpty: bool)

  predicate WithinLimit(rules: TextRules, b: bytes, l: TextLimit) {
    && rules.utf8(b)
    && |b| <= l.maxBytes
    && rules.scalars(b) <= l.maxScalars
    && (l.nonEmpty ==> b != [])
  }

  predicate OptionLength(v: Option<bytes>, n: nat) {
    v.Some? ==> |v.value| == n
  }

  /** A nullable text, when present, is never empty. */
  predicate OptionWithinLimit(rules: TextRules, v: Option<bytes>, l: TextLimit) {
    v.Some? ==> WithinLimit(rules, v.value, l.(nonEmpty := true))
  }
}
