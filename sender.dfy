/**
 * `extract_sender_name` (utils.py:88-106): the folder name for an email's
 * sender. The display name in front of `<` wins when it is not blank;
 * otherwise the local part of the first address; otherwise `"Unknown"`.
 * Both regular expressions are modelled by how `re.search` scans:
 *   `^(.*?)\s*<`       the shortest prefix without `\n` followed by
 *                      whitespace and `<`;
 *   `<?([\w\.-]+)@`    the leftmost run of word characters, dots and dashes
 *                      (after an optional `<`) that ends right at an `@`.
 */
module Sender {
  import opened Optional
  import opened Text

  const Unknown: string := "Unknown"

  /** `\w` on ASCII text: letters, digits and underscore. */
  predicate IsWordChar(c: char)
  {
    'a' <= c <= 'z' || 'A' <= c <= 'Z' || '0' <= c <= '9' || c == '_'
  }

  /** `[\w\.-]`. */
  predicate IsAddressChar(c: char)
  {
    IsWordChar(c) || c == '.' || c == '-'
  }

  predicate AllAddressChars(s: string)
  {
    forall i :: 0 <= i < |s| ==> IsAddressChar(s[i])
  }

  /** `\s*<` matches at `k` (greedy `\s*` stops at `SkipSpace`): giving back whitespace never helps, `<` is not whitespace. */
  predicate AngleAfter(s: string, k: nat)
    requires k <= |s|
  {
    SkipSpace(s, k) < |s| && s[SkipSpace(s, k)] == '<'
  }

  /** The lazy group `(.*?)`: the first `k` from `from` on where `\s*<` matches, never crossing a `\n`. */
  function NameEnd(s: string, from: nat): (r: Option<nat>)
    requires from <= |s|
    ensures r.Some? ==> from <= r.value <= |s| && AngleAfter(s, r.value)
    ensures r.Some? ==> forall j :: from <= j < r.value ==> !AngleAfter(s, j) && s[j] != '\n'
    ensures r.None? ==> forall j :: from <= j <= |s| && AngleAfter(s, j) ==> '\n' in s[from..j]
    decreases |s| - from
  {
    if AngleAfter(s, from) then Some(from)
    else if from == |s| || s[from] == '\n' then
      assert forall j :: from < j <= |s| ==> s[from..j][0] == s[from];
      None
    else
      var r := NameEnd(s, from + 1);
      assert forall j :: from < j <= |s| ==> s[from + 1..j] == s[from..j][1..];
      r
  }

  /** `match.group(1).strip()` of the first expression, when it matches. */
  function DisplayName(s: string): Option<string>
  {
    match NameEnd(s, 0)
    case Some(k) => Some(Strip(s[..k]))
    case None => None
  }

  /** The end of the run of address characters starting at `from` (greedy `[\w\.-]+`). */
  function AddressEnd(s: string, from: nat): (k: nat)
    requires from <= |s|
    ensures from <= k <= |s|
    ensures forall j :: from <= j < k ==> IsAddressChar(s[j])
    ensures k < |s| ==> !IsAddressChar(s[k])
    decreases |s| - from
  {
    if from == |s| || !IsAddressChar(s[from]) then from else AddressEnd(s, from + 1)
  }

  /** `<?([\w\.-]+)@` tried at `i`: the group, if it matches there. */
  function AddressAt(s: string, i: nat): (r: Option<string>)
    requires i < |s|
    ensures r.Some? ==> r.value != "" && AllAddressChars(r.value)
    ensures r.Some? ==> OccursAt(s, r.value + "@", if s[i] == '<' then i + 1 else i)
  {
    var j := if s[i] == '<' then i + 1 else i;
    var e := AddressEnd(s, j);
    if j < e < |s| && s[e] == '@' then
      assert s[j..e + 1] == s[j..e] + "@";
      assert OccursAt(s, s[j..e] + "@", j);
      Some(s[j..e])
    else None
  }

  /** `p` is the first position at or after `i` where the address expression matches. */
  ghost predicate LeftmostAddress(s: string, i: nat, p: nat)
  {
    i <= p < |s| && AddressAt(s, p).Some? && forall q :: i <= q < p ==> AddressAt(s, q).None?
  }

  /** `re.search` of the address expression from `i` on: the leftmost match. */
  function FirstAddress(s: string, i: nat): (r: Option<string>)
    requires i <= |s|
    ensures r.Some? ==> r.value != "" && AllAddressChars(r.value)
    ensures r.Some? ==> exists a :: OccursAt(s, r.value + "@", a)
    ensures r.Some? ==> exists p: nat :: LeftmostAddress(s, i, p) && AddressAt(s, p) == r
    ensures r.None? ==> forall p :: i <= p < |s| ==> AddressAt(s, p).None?
    decreases |s| - i
  {
    if i == |s| then None
    else
      match AddressAt(s, i)
      case Some(a) => Some(a)
      case None => FirstAddress(s, i + 1)
  }

  /** Free of `<` and of line breaks `\n`. */
  predicate NoAngleOrNewline(s: string)
  {
    forall i :: 0 <= i < |s| ==> s[i] != '<' && s[i] != '\n'
  }

  /** The group of the first expression contains neither `<` nor `\n`: an earlier `<` would have ended it. */
  lemma GroupClean(s: string)
    requires NameEnd(s, 0).Some?
    ensures NoAngleOrNewline(s[..NameEnd(s, 0).value])
  {
    var k := NameEnd(s, 0).value;
    forall j | 0 <= j < k ensures s[j] != '<' && s[j] != '\n' {
      AngleHere(s, j);
    }
  }

  lemma AngleHere(s: string, j: nat)
    requires j < |s|
    ensures s[j] == '<' ==> AngleAfter(s, j)
  {
    assert s[j] == '<' ==> !IsSpace(s[j]);
  }

  /** A stripped piece of a string is a factor of it. */
  lemma StripFactor(g: string) returns (a: nat)
    ensures a + |Strip(g)| <= |g| && Strip(g) == g[a..a + |Strip(g)|]
  {
    StripIsFactor(g);
    var i, j :| 0 <= i <= j <= |g| && Strip(g) == g[i..j];
    a := i;
  }

  /** A factor of a clean string is clean. */
  lemma FactorClean(g: string, a: nat, b: nat)
    requires a <= b <= |g| && NoAngleOrNewline(g)
    ensures NoAngleOrNewline(g[a..b])
  {
    assert forall m :: 0 <= m < b - a ==> g[a..b][m] == g[a + m];
  }

  /** A factor of a prefix is a factor of the whole. */
  lemma PrefixFactor(s: string, k: nat, a: nat, b: nat)
    requires a <= b <= k <= |s|
    ensures s[..k][a..b] == s[a..b]
  {
  }

  /** A display name is a clean, stripped piece of the header. */
  lemma DisplayNameShape(s: string)
    requires DisplayName(s).Some?
    ensures NoAngleOrNewline(DisplayName(s).value)
    ensures Strip(DisplayName(s).value) == DisplayName(s).value
    ensures exists a :: OccursAt(s, DisplayName(s).value, a)
  {
    var k := NameEnd(s, 0).value;
    var g := s[..k];
    var n := Strip(g);
    assert DisplayName(s).value == n;
    GroupClean(s);
    var a := StripFactor(g);
    FactorClean(g, a, a + |n|);
    PrefixFactor(s, k, a, a + |n|);
    assert OccursAt(s, n, a);
    StripIdempotent(g);
  }

  /** An address part is clean and has no whitespace. */
  lemma AddressShape(address: string)
    requires AllAddressChars(address)
    ensures NoAngleOrNewline(address) && Strip(address) == address
  {
    forall i | 0 <= i < |address| ensures !IsSpace(address[i]) && address[i] != '<' && address[i] != '\n' {
      AddressCharClean(address[i]);
    }
    StripNoSpace(address);
  }

  lemma AddressCharClean(c: char)
    requires IsAddressChar(c)
    ensures !IsSpace(c) && c != '<' && c != '\n'
  {
  }

  lemma UnknownShape()
    ensures NoAngleOrNewline(Unknown) && Strip(Unknown) == Unknown
  {
    forall i | 0 <= i < |Unknown| ensures IsAddressChar(Unknown[i]) {
      assert 'a' <= Unknown[i] <= 'z' || Unknown[i] == 'U';
    }
    AddressShape(Unknown);
  }

  /** `extract_sender_name(from_header)`. */
  function ExtractSenderName(header: string): (name: string)
    ensures name != ""
  {
    if header == "" then Unknown
    else if DisplayName(header).Some? && DisplayName(header).value != "" then DisplayName(header).value
    else
      match FirstAddress(header, 0)
      case Some(address) => address
      case None => Unknown
  }

  /** What a sender name looks like: non-empty, clean, stripped, and `"Unknown"` or a piece of the header. */
  ghost predicate IsSenderNameOf(header: string, r: string)
  {
    r != "" && NoAngleOrNewline(r) && Strip(r) == r && (r == Unknown || exists a :: OccursAt(header, r, a))
  }

  /**
   * The leftmost match takes a whole run: the address part starts right
   * after a `<`, at the start of the header, or after a character that is
   * not an address character, so `ab@x` gives `ab` and never `b`.
   */
  lemma FirstAddressWholeRun(s: string)
    requires FirstAddress(s, 0).Some?
    ensures exists a :: OccursAt(s, FirstAddress(s, 0).value + "@", a) && (a == 0 || !IsAddressChar(s[a - 1]))
  {
    var r := FirstAddress(s, 0);
    var p: nat :| LeftmostAddress(s, 0, p) && AddressAt(s, p) == r;
    LeftmostWholeRun(s, p);
  }

  /** The group of the leftmost match starts right after a `<`, at the start, or after a non-address character. */
  lemma LeftmostWholeRun(s: string, p: nat)
    requires LeftmostAddress(s, 0, p)
    ensures var a := if s[p] == '<' then p + 1 else p;
            OccursAt(s, AddressAt(s, p).value + "@", a) && (a == 0 || !IsAddressChar(s[a - 1]))
  {
    LeftmostStartsRun(s, p);
  }

  /** The leftmost match does not start inside a run of address characters, unless after a `<`. */
  lemma LeftmostStartsRun(s: string, p: nat)
    requires LeftmostAddress(s, 0, p)
    ensures p == 0 || s[p] == '<' || !IsAddressChar(s[p - 1])
  {
    if p > 0 && s[p] != '<' && IsAddressChar(s[p - 1]) {
      RunMatchesEarlier(s, p);
      assert false;
    }
  }

  /** Inside a run, the address expression already matches one character earlier. */
  lemma RunMatchesEarlier(s: string, p: nat)
    requires 0 < p < |s| && s[p] != '<' && IsAddressChar(s[p - 1]) && AddressAt(s, p).Some?
    ensures AddressAt(s, p - 1).Some?
  {
    assert AddressEnd(s, p - 1) == AddressEnd(s, p);
  }

  lemma AddressIsSenderName(header: string)
    requires FirstAddress(header, 0).Some?
    ensures IsSenderNameOf(header, FirstAddress(header, 0).value)
  {
    var address := FirstAddress(header, 0).value;
    AddressShape(address);
    var a :| OccursAt(header, address + "@", a);
    OccursBefore(header, address, "@", a);
  }

  /** Where `pat + tail` occurs, `pat` occurs. */
  lemma OccursBefore(s: string, pat: string, tail: string, a: int)
    requires OccursAt(s, pat + tail, a)
    ensures OccursAt(s, pat, a)
  {
    assert s[a..a + |pat|] == (pat + tail)[..|pat|];
  }

  /** `extract_sender_name` always gives a sender name of the header, and `"Unknown"` for an empty header. */
  lemma SenderNameShape(header: string)
    ensures IsSenderNameOf(header, ExtractSenderName(header))
    ensures header == "" ==> ExtractSenderName(header) == Unknown
  {
    UnknownShape();
    if header != "" {
      if DisplayName(header).Some? && DisplayName(header).value != "" {
        DisplayNameShape(header);
      } else if FirstAddress(header, 0).Some? {
        AddressIsSenderName(header);
      }
    }
  }

  // ---------------------------------------------------------------------
  // The header shapes the function is written for

  /** In `Name <...`, with a one-line name free of `<`, the scan stops right after the name. */
  lemma {:induction false} NameEndAfterName(name: string, rest: string)
    requires name != "" && !IsSpace(name[|name| - 1])
    requires '<' !in name && '\n' !in name
    ensures NameEnd(name + " <" + rest, 0) == Some(|name|)
  {
    var s := name + " <" + rest;
    assert s[|name|] == ' ' && s[|name| + 1] == '<';
    assert SkipSpace(s, |name| + 1) == |name| + 1;
    assert SkipSpace(s, |name|) == |name| + 1;
    forall j | 0 <= j < |name| ensures !AngleAfter(s, j) && s[j] != '\n' {
      NoAngleInside(name, s, j);
    }
    NameEndFrom(s, 0, |name|);
  }

  /** Inside a name that ends in a non-space character, skipping whitespace lands on a character of the name. */
  lemma NoAngleInside(name: string, s: string, j: nat)
    requires name <= s && j < |name| && !IsSpace(name[|name| - 1]) && '<' !in name
    ensures !AngleAfter(s, j) && s[j] == name[j]
  {
    assert SkipSpace(s, j) < |name| by {
      assert s[|name| - 1] == name[|name| - 1];
    }
    assert s[SkipSpace(s, j)] == name[SkipSpace(s, j)];
  }

  /** The scan from `from` reaches `k` when nothing before it matches or ends the line. */
  lemma {:induction false} NameEndFrom(s: string, from: nat, k: nat)
    requires from <= k <= |s| && AngleAfter(s, k)
    requires forall j :: from <= j < k ==> !AngleAfter(s, j) && s[j] != '\n'
    ensures NameEnd(s, from) == Some(k)
    decreases k - from
  {
    if from < k {
      NameEndFrom(s, from + 1, k);
    }
  }

  /** `Name <address>`: the display name is taken. */
  lemma NamedSender(name: string, rest: string)
    requires name != "" && Strip(name) == name
    requires '<' !in name && '\n' !in name
    ensures ExtractSenderName(name + " <" + rest) == name
  {
    StripBounds(name);
    NameEndAfterName(name, rest);
    var s := name + " <" + rest;
    assert s[..|name|] == name;
  }

  /** `<address@host>`: the name is blank, so the address part is taken. */
  lemma AngleOnlySender(address: string, rest: string)
    requires address != "" && AllAddressChars(address)
    ensures ExtractSenderName("<" + address + "@" + rest) == address
  {
    var s := "<" + address + "@" + rest;
    assert SkipSpace(s, 0) == 0;
    assert NameEnd(s, 0) == Some(0);
    assert s[..0] == "";
    assert forall j :: 1 <= j < 1 + |address| ==> s[j] == address[j - 1];
    assert s[1 + |address|] == '@';
    assert AddressEnd(s, 1) == 1 + |address| by {
      AddressEndAt(s, 1, 1 + |address|);
    }
    assert s[1..1 + |address|] == address;
  }

  /** A bare `address@host` with no `<` anywhere: the address part is taken. */
  lemma BareSender(address: string, rest: string)
    requires address != "" && AllAddressChars(address) && '<' !in rest
    ensures ExtractSenderName(address + "@" + rest) == address
  {
    var s := address + "@" + rest;
    assert forall j :: 0 <= j < |address| ==> s[j] == address[j];
    assert s[|address|] == '@';
    assert '<' !in s by {
      assert forall j :: |address| < j < |s| ==> s[j] == rest[j - |address| - 1];
      assert forall j :: 0 <= j < |address| ==> IsAddressChar(s[j]);
    }
    NoAngleNoName(s, 0);
    AddressEndAt(s, 0, |address|);
    assert s[0] != '<' by {
      assert IsAddressChar(address[0]);
    }
    assert s[..|address|] == address;
  }

  /** Without `<`, the first expression never matches. */
  lemma {:induction false} NoAngleNoName(s: string, from: nat)
    requires from <= |s| && '<' !in s
    ensures NameEnd(s, from).None?
    decreases |s| - from
  {
    if from < |s| && s[from] != '\n' {
      NoAngleNoName(s, from + 1);
    }
  }

  /** The address run from `from` ends at `e` when everything in between is an address character and `s[e]` is not. */
  lemma {:induction false} AddressEndAt(s: string, from: nat, e: nat)
    requires from <= e < |s| && !IsAddressChar(s[e])
    requires forall j :: from <= j < e ==> IsAddressChar(s[j])
    ensures AddressEnd(s, from) == e
    decreases e - from
  {
    if from < e {
      AddressEndAt(s, from + 1, e);
    }
  }
}
