/**
 * The identifier formats an order line must have (src/main.py, lines
 * 80-106): a fixed prefix followed by one or more digits, and nothing else
 * (`re.fullmatch(r'<prefix>\d+', v)`).
 */
module Identifiers {
  import opened Tables

  predicate IsDigit(c: char) {
    '0' <= c <= '9'
  }

  /** The declarative format: `prefix`, then a non-empty run of digits, then the end of the text. */
  predicate PrefixedDigits(prefix: string, s: string) {
    |s| > |prefix| && s[..|prefix|] == prefix &&
    forall i :: |prefix| <= i < |s| ==> IsDigit(s[i])
  }

  /** `\d+` anchored at both ends: one or more digits and nothing after them. */
  function DigitRun(s: string): (b: bool)
    ensures b <==> s != [] && forall i :: 0 <= i < |s| ==> IsDigit(s[i])
  {
    if s == [] then false
    else IsDigit(s[0]) && (|s| == 1 || DigitRun(s[1..]))
  }

  /** The matcher: consume the literal prefix character by character, then the digit run. */
  function FullMatch(prefix: string, s: string): bool
  {
    if prefix == [] then DigitRun(s)
    else s != [] && s[0] == prefix[0] && FullMatch(prefix[1..], s[1..])
  }

  /** The matcher accepts exactly the texts of the declarative format. */
  lemma {:induction false} FullMatchCorrect(prefix: string, s: string)
    ensures FullMatch(prefix, s) <==> PrefixedDigits(prefix, s)
  {
    if prefix != [] && s != [] {
      FullMatchCorrect(prefix[1..], s[1..]);
      if s[0] != prefix[0] && |s| > |prefix| {
        assert s[..|prefix|][0] != prefix[0];
      }
      if s[0] == prefix[0] && |s| > |prefix| {
        assert s[..|prefix|] == [s[0]] + s[1..][..|prefix| - 1];
        assert prefix == [prefix[0]] + prefix[1..];
        assert forall i :: |prefix| <= i < |s| ==> s[i] == s[1..][i - 1];
      }
    } else if prefix == [] {
      assert s[..0] == prefix;
    }
  }

  /** Lines 80-85. */
  function WarehouseId(v: string): (r: Result<string>)
    ensures r.Ok? <==> PrefixedDigits("WH", v)
    ensures r.Ok? ==> r.value == v
  {
    FullMatchCorrect("WH", v);
    if FullMatch("WH", v) then Ok(v) else Err("Warehouse_ID must start with 'WH' followed by digits.")
  }

  /** Lines 87-92. */
  function CustomerId(v: string): (r: Result<string>)
    ensures r.Ok? <==> PrefixedDigits("CUST", v)
    ensures r.Ok? ==> r.value == v
  {
    FullMatchCorrect("CUST", v);
    if FullMatch("CUST", v) then Ok(v) else Err("Customer_ID must start with 'CUST' followed by digits.")
  }

  /** Lines 94-99. */
  function ProductId(v: string): (r: Result<string>)
    ensures r.Ok? <==> PrefixedDigits("Product_", v)
    ensures r.Ok? ==> r.value == v
  {
    FullMatchCorrect("Product_", v);
    if FullMatch("Product_", v) then Ok(v) else Err("Product_ID must start with 'Product_' followed by digits.")
  }

  /** Lines 101-106. */
  function SkuId(v: string): (r: Result<string>)
    ensures r.Ok? <==> PrefixedDigits("SKU_", v)
    ensures r.Ok? ==> r.value == v
  {
    FullMatchCorrect("SKU_", v);
    if FullMatch("SKU_", v) then Ok(v) else Err("SKU_ID must start with 'SKU_' followed by digits.")
  }

  /** A prefix alone, or a prefix followed by anything that is not a digit, is refused. */
  lemma PrefixAloneRefused(prefix: string, tail: string)
    requires tail == [] || !IsDigit(tail[0])
    ensures !PrefixedDigits(prefix, prefix + tail)
  {
    if tail != [] {
      assert (prefix + tail)[|prefix|] == tail[0];
    }
  }

  /** No identifier passes two of the four checks: the formats are disjoint. */
  lemma FormatsDisjoint(s: string)
    ensures !(PrefixedDigits("WH", s) && PrefixedDigits("CUST", s))
    ensures !(PrefixedDigits("WH", s) && PrefixedDigits("Product_", s))
    ensures !(PrefixedDigits("WH", s) && PrefixedDigits("SKU_", s))
    ensures !(PrefixedDigits("CUST", s) && PrefixedDigits("Product_", s))
    ensures !(PrefixedDigits("CUST", s) && PrefixedDigits("SKU_", s))
    ensures !(PrefixedDigits("Product_", s) && PrefixedDigits("SKU_", s))
  {
    // The four prefixes start with four different letters.
    if PrefixedDigits("WH", s) {
      assert s[0] == "WH"[0];
    }
    if PrefixedDigits("CUST", s) {
      assert s[0] == "CUST"[0];
    }
    if PrefixedDigits("Product_", s) {
      assert s[0] == "Product_"[0];
    }
  }

}
