/**
 * The configuration text helpers of the bitstream loader (parser.hpp).
 *
 * A keys file names the hardware-handoff parameters of interest, one per line;
 * the hardware-handoff file is scanned line by line for `VALUE="..."`
 * attributes of those parameters; the collected table is turned into the four
 * PL clock descriptions and written out as a flat JSON object.
 *
 * Files are modelled by their lines (what `std::getline` yields), `None`
 * standing for a file that cannot be opened; a `std::unordered_map` is a class
 * holding a Dafny `map`, and its unspecified iteration order is an explicit
 * sequence of its keys.
 */
module Parser {
  import opened Common

  // ---------------------------------------------------------------------
  // trim
  // ---------------------------------------------------------------------

  /** The characters `trim` strips: space, tab, line feed, carriage return. */
  predicate IsSpace(c: char) {
    c == ' ' || c == '\t' || c == '\n' || c == '\r'
  }

  predicate AllSpace(s: string) {
    forall i | 0 <= i < |s| :: IsSpace(s[i])
  }

  /** `find_first_not_of(" \t\n\r")`, as a count: the leading whitespace. */
  function LeadingSpaces(s: string): (n: nat)
    ensures n <= |s|
    ensures forall i | 0 <= i < n :: IsSpace(s[i])
    ensures n < |s| ==> !IsSpace(s[n])
  {
    if s == [] || !IsSpace(s[0]) then 0 else 1 + LeadingSpaces(s[1..])
  }

  /** `find_last_not_of(" \t\n\r")`, as a count: the trailing whitespace. */
  function TrailingSpaces(s: string): (n: nat)
    ensures n <= |s|
    ensures forall i | |s| - n <= i < |s| :: IsSpace(s[i])
    ensures n < |s| ==> !IsSpace(s[|s| - n - 1])
  {
    if s == [] || !IsSpace(s[|s| - 1]) then 0 else 1 + TrailingSpaces(s[..|s| - 1])
  }

  /**
   * `trim`: an all-whitespace string (the empty one included) comes back as it
   * is; any other loses its leading and trailing whitespace and nothing else.
   */
  function Trim(s: string): (r: string)
    ensures AllSpace(s) ==> r == s
    ensures !AllSpace(s) ==> |r| > 0 && !IsSpace(r[0]) && !IsSpace(r[|r| - 1])
  {
    var first := LeadingSpaces(s);
    if first == |s| then s
    else
      var trailing := TrailingSpaces(s);
      assert !IsSpace(s[first]);
      s[first .. |s| - trailing]
  }

  lemma {:induction false} LeadingSpacesOf(a: string, rest: string)
    requires AllSpace(a) && rest != [] && !IsSpace(rest[0])
    ensures LeadingSpaces(a + rest) == |a|
  {
    if a != [] {
      assert (a + rest)[1..] == a[1..] + rest;
      LeadingSpacesOf(a[1..], rest);
    } else {
      assert a + rest == rest;
    }
  }

  lemma {:induction false} TrailingSpacesOf(rest: string, b: string)
    requires AllSpace(b) && rest != [] && !IsSpace(rest[|rest| - 1])
    ensures TrailingSpaces(rest + b) == |b|
  {
    if b != [] {
      assert (rest + b)[..|rest + b| - 1] == rest + b[..|b| - 1];
      TrailingSpacesOf(rest, b[..|b| - 1]);
    } else {
      assert rest + b == rest;
    }
  }

  /**
   * The text between whitespace padding is what `trim` gives back, whatever
   * the padding: `trim` removes exactly the leading and trailing whitespace.
   */
  lemma TrimOfPadded(a: string, t: string, b: string)
    requires AllSpace(a) && AllSpace(b)
    requires t != [] && !IsSpace(t[0]) && !IsSpace(t[|t| - 1])
    ensures Trim(a + t + b) == t
  {
    var s := a + t + b;
    assert s == a + (t + b);
    LeadingSpacesOf(a, t + b);
    assert s == (a + t) + b;
    TrailingSpacesOf(a + t, b);
    assert !IsSpace(s[|a|]);
    assert s[|a| .. |s| - |b|] == t;
  }

  /** `trim` is idempotent. */
  lemma TrimIdempotent(s: string)
    ensures Trim(Trim(s)) == Trim(s)
  {
    if !AllSpace(s) {
      var t := Trim(s);
      assert [] + t + [] == t;
      TrimOfPadded([], t, []);
    }
  }

  // ---------------------------------------------------------------------
  // std::string::find and extractValue
  // ---------------------------------------------------------------------

  /** Whether `pat` occurs in `s` starting at index k. */
  predicate OccursAt(s: string, pat: string, k: nat) {
    k + |pat| <= |s| && s[k .. k + |pat|] == pat
  }

  /** A one-character pattern occurs exactly where that character is. */
  lemma OccursAtChar(s: string, c: char, k: nat)
    ensures OccursAt(s, [c], k) <==> k < |s| && s[k] == c
  {
    if k < |s| {
      assert s[k .. k + 1] == [s[k]];
    }
  }

  /** `pat` does not start anywhere in from .. to - 1. */
  ghost predicate NoneBetween(s: string, pat: string, from: nat, to: nat) {
    forall k | from <= k < to :: !OccursAt(s, pat, k)
  }

  /** `pat` does not start anywhere at or after `from`. */
  ghost predicate NoneFrom(s: string, pat: string, from: nat) {
    forall k | from <= k :: !OccursAt(s, pat, k)
  }

  /** `s.find(pat, from)`: the first occurrence at or after `from`, `None` for npos. */
  function Find(s: string, pat: string, from: nat): (r: Option<nat>)
    ensures r.Some? ==> from <= r.value && OccursAt(s, pat, r.value)
    ensures r.Some? ==> NoneBetween(s, pat, from, r.value)
    ensures r.None? ==> NoneFrom(s, pat, from)
    decreases |s| - from
  {
    if from + |pat| > |s| then None
    else if s[from .. from + |pat|] == pat then Some(from)
    else Find(s, pat, from + 1)
  }

  /** The first occurrence at or after `from` is the one Find reports. */
  lemma FindFirst(s: string, pat: string, from: nat, k: nat)
    requires from <= k && OccursAt(s, pat, k)
    requires forall j | from <= j < k :: !OccursAt(s, pat, j)
    ensures Find(s, pat, from) == Some(k)
  {
  }

  /** `line.find(key) != npos`. */
  predicate Contains(line: string, key: string) {
    Find(line, key, 0).Some?
  }

  const VALUE_TAG: string := "VALUE=\""

  /**
   * `extractValue`: the text between the first `VALUE="` and the next `"`, or
   * the empty string when either is missing.
   */
  function ExtractValue(line: string): (v: string)
    ensures Find(line, VALUE_TAG, 0).None? ==> v == ""
    ensures forall k | 0 <= k < |v| :: v[k] != '\"'
  {
    match Find(line, VALUE_TAG, 0)
    case None => ""
    case Some(p) =>
      match Find(line, "\"", p + |VALUE_TAG|)
      case None => ""
      case Some(e) =>
        assert forall k | p + |VALUE_TAG| <= k < e :: line[k] != '\"' by {
          forall k | p + |VALUE_TAG| <= k < e
            ensures line[k] != '\"'
          {
            OccursAtChar(line, '\"', k);
          }
        }
        line[p + |VALUE_TAG| .. e]
  }

  /**
   * On a line whose first `VALUE="` is followed by a quote-free text and a
   * closing quote, extractValue returns that text.
   */
  lemma ExtractValueOfAttribute(pre: string, v: string, post: string)
    requires forall k | 0 <= k < |pre| :: !OccursAt(pre + VALUE_TAG + v + "\"" + post, VALUE_TAG, k)
    requires forall k | 0 <= k < |v| :: v[k] != '\"'
    ensures ExtractValue(pre + VALUE_TAG + v + "\"" + post) == v
  {
    var line := pre + VALUE_TAG + v + "\"" + post;
    var p := |pre|;
    assert line[p .. p + |VALUE_TAG|] == VALUE_TAG;
    FindFirst(line, VALUE_TAG, 0, p);
    var e := p + |VALUE_TAG| + |v|;
    OccursAtChar(line, '\"', e);
    forall k | p + |VALUE_TAG| <= k < e
      ensures !OccursAt(line, "\"", k)
    {
      assert line[k] == v[k - p - |VALUE_TAG|];
      OccursAtChar(line, '\"', k);
    }
    FindFirst(line, "\"", p + |VALUE_TAG|, e);
    assert line[p + |VALUE_TAG| .. e] == v;
  }

  /** An opening `VALUE="` without a closing quote after it yields the empty string. */
  lemma ExtractValueUnclosed(line: string, p: nat)
    requires Find(line, VALUE_TAG, 0) == Some(p)
    requires forall k | p + |VALUE_TAG| <= k < |line| :: line[k] != '\"'
    ensures ExtractValue(line) == ""
  {
    forall k | p + |VALUE_TAG| <= k
      ensures !OccursAt(line, "\"", k)
    {
      OccursAtChar(line, '\"', k);
    }
    FindAbsent(line, "\"", p + |VALUE_TAG|);
  }

  /** Find reports npos when nothing occurs at or after `from`. */
  lemma {:induction false} FindAbsent(s: string, pat: string, from: nat)
    requires forall k | from <= k :: !OccursAt(s, pat, k)
    ensures Find(s, pat, from) == None
    decreases |s| - from
  {
    if from + |pat| <= |s| {
      assert !OccursAt(s, pat, from);
      FindAbsent(s, pat, from + 1);
    }
  }

  // ---------------------------------------------------------------------
  // The key of a keys-file line
  // ---------------------------------------------------------------------

  /**
   * The key `parseKeysJson` takes from one line: with both a `:` and a `"` in
   * it, `trim(line.substr(quotePos + 1, colonPos - quotePos - 3))`, the count
   * computed in `size_t` (so a colon less than three places after the quote
   * wraps round to the rest of the line); no key otherwise.
   */
  function KeyOfLine(line: string): (k: Option<string>)
    ensures k.Some? <==> Contains(line, ":") && Contains(line, "\"")
  {
    var colon := Find(line, ":", 0);
    var quote := Find(line, "\"", 0);
    if colon.None? || quote.None? then None
    else Some(Trim(KeyText(line, colon.value, quote.value)))
  }

  /**
   * `line.substr(q + 1, c - q - 3)`: the count wraps modulo 2^64 and `substr`
   * copies no further than the end of the line.
   */
  function KeyText(line: string, c: nat, q: nat): (t: string)
    requires q < |line|
    ensures q + 1 + |t| <= |line| && t == line[q + 1 .. q + 1 + |t|]
    ensures c >= q + 3 && c < |line| && c - q - 3 < TWO_64 ==> |t| == c - q - 3
  {
    var count := ToU64(c - q - 3);
    var len := if count <= |line| - (q + 1) then count else |line| - (q + 1);
    ToU64Small(c - q - 3);
    line[q + 1 .. q + 1 + len]
  }

  /** Neither a colon nor a double quote. */
  predicate Plain(s: string) {
    forall i | 0 <= i < |s| :: s[i] != ':' && s[i] != '\"'
  }

  lemma FirstOccurrenceOf(line: string, pre: string, c: char)
    requires |pre| < |line| && line[..|pre|] == pre && line[|pre|] == c
    requires forall i | 0 <= i < |pre| :: pre[i] != c
    ensures Find(line, [c], 0) == Some(|pre|)
  {
    OccursAtChar(line, c, |pre|);
    forall j | 0 <= j < |pre|
      ensures !OccursAt(line, [c], j)
    {
      assert line[j] == pre[j];
      OccursAtChar(line, c, j);
    }
    FindFirst(line, [c], 0, |pre|);
  }

  /** The first double quote of `<pre>"<tail>` is the one after `pre`. */
  lemma QuoteOpensKey(pre: string, tail: string)
    requires Plain(pre)
    ensures Find(pre + "\"" + tail, "\"", 0) == Some(|pre|)
  {
    var line := pre + "\"" + tail;
    assert line[..|pre|] == pre && line[|pre|] == '\"';
    FirstOccurrenceOf(line, pre, '\"');
  }

  /** The first colon of `<pre>"<key><sep>:<rest>` is the one after `sep`. */
  lemma ColonAfterKey(pre: string, key: string, sep: string, rest: string)
    requires Plain(pre) && Plain(key) && forall i | 0 <= i < |sep| :: sep[i] != ':'
    ensures Find(pre + "\"" + key + sep + ":" + rest, ":", 0) == Some(|pre| + 1 + |key| + |sep|)
  {
    var line := pre + "\"" + key + sep + ":" + rest;
    var upToColon := pre + "\"" + key + sep;
    assert line == upToColon + ":" + rest;
    assert line[..|upToColon|] == upToColon && line[|upToColon|] == ':';
    forall i | 0 <= i < |upToColon|
      ensures upToColon[i] != ':'
    {
      if i < |pre| {
        assert upToColon[i] == pre[i];
      } else if |pre| < i < |pre| + 1 + |key| {
        assert upToColon[i] == key[i - |pre| - 1];
      } else if i >= |pre| + 1 + |key| {
        assert upToColon[i] == sep[i - |pre| - 1 - |key|];
      }
    }
    FirstOccurrenceOf(line, upToColon, ':');
  }

  /**
   * A line of the form `<pre>"KEY" : <rest>`, with no colon or quote before the
   * key's closing quote, yields the trimmed key.
   */
  lemma KeyOfSpacedLine(pre: string, key: string, rest: string)
    requires Plain(pre) && Plain(key) && |key| < TWO_64
    ensures KeyOfLine(pre + "\"" + key + "\" :" + rest) == Some(Trim(key))
  {
    var line := pre + "\"" + key + "\" :" + rest;
    var q := |pre|;
    assert line == pre + "\"" + (key + "\" :" + rest);
    QuoteOpensKey(pre, key + "\" :" + rest);
    assert line == pre + "\"" + key + "\" " + ":" + rest;
    ColonAfterKey(pre, key, "\" ", rest);
    assert line[q + 1 .. q + 1 + |key|] == key;
    KeyOfLineWith(line, q + 3 + |key|, q, key);
  }

  /** A line whose first colon and quote give the key text t yields `trim(t)`. */
  lemma KeyOfLineWith(line: string, c: nat, q: nat, t: string)
    requires Find(line, ":", 0) == Some(c) && Find(line, "\"", 0) == Some(q)
    requires c == q + 3 + |t| && |t| < TWO_64 && line[q + 1 .. q + 1 + |t|] == t
    ensures KeyOfLine(line) == Some(Trim(t))
  {
    assert KeyText(line, c, q) == t;
  }

  /**
   * A line of the form `<pre>"KEY": <rest>`, the colon right after the closing
   * quote, loses the key's last character: the count `colonPos - quotePos - 3`
   * assumes a space before the colon.
   */
  lemma KeyOfUnspacedLine(pre: string, key: string, rest: string)
    requires Plain(pre) && Plain(key) && 0 < |key| < TWO_64
    ensures KeyOfLine(pre + "\"" + key + "\":" + rest) == Some(Trim(key[..|key| - 1]))
  {
    var line := pre + "\"" + key + "\":" + rest;
    var q := |pre|;
    assert line == pre + "\"" + (key + "\":" + rest);
    QuoteOpensKey(pre, key + "\":" + rest);
    assert line == pre + "\"" + key + "\"" + ":" + rest;
    ColonAfterKey(pre, key, "\"", rest);
    assert line[q + 1 .. q + |key|] == key[..|key| - 1];
    KeyOfLineWith(line, q + 2 + |key|, q, key[..|key| - 1]);
  }

  // ---------------------------------------------------------------------
  // The key table and the two file scans
  // ---------------------------------------------------------------------

  /** What `keysMap[key]` reads: the stored value, or "" for a missing key. */
  function Lookup(m: map<string, string>, key: string): string {
    if key in m then m[key] else ""
  }

  /**
   * The table after `keysMap[key]` has been evaluated for every key of
   * `looked`: the missing ones are inserted with an empty value.
   */
  function Touched(m: map<string, string>, looked: set<string>): (r: map<string, string>)
    ensures r.Keys == m.Keys + looked
    ensures forall k | k in m :: r[k] == m[k]
  {
    map k | k in m.Keys + looked :: Lookup(m, k)
  }

  /** Touching one more key. */
  lemma TouchedStep(m: map<string, string>, looked: set<string>, key: string)
    ensures Touched(m, looked + {key}) ==
            (var t := Touched(m, looked); if key in t then t else t[key := ""])
    ensures Lookup(Touched(m, looked), key) == Lookup(m, key)
  {
  }

  /** The table after one keys-file line. */
  function AddKey(m: map<string, string>, line: string): map<string, string> {
    match KeyOfLine(line)
    case Some(k) => m[k := ""]
    case None => m
  }

  /** The table after the keys-file lines, in order. */
  function KeysAdded(m: map<string, string>, lines: seq<string>): map<string, string>
    decreases |lines|
  {
    if lines == [] then m else KeysAdded(AddKey(m, lines[0]), lines[1..])
  }

  /** Whether some line of the keys file yields `key`. */
  predicate KeyLine(lines: seq<string>, key: string) {
    exists i | 0 <= i < |lines| :: KeyOfLine(lines[i]) == Some(key)
  }

  lemma KeyLineCons(lines: seq<string>, key: string)
    requires lines != []
    ensures KeyLine(lines, key) <==> KeyOfLine(lines[0]) == Some(key) || KeyLine(lines[1..], key)
  {
    if KeyLine(lines, key) && KeyOfLine(lines[0]) != Some(key) {
      var i :| 0 <= i < |lines| && KeyOfLine(lines[i]) == Some(key);
      assert lines[1..][i - 1] == lines[i];
    }
    if KeyLine(lines[1..], key) {
      var i :| 0 <= i < |lines[1..]| && KeyOfLine(lines[1..][i]) == Some(key);
      assert lines[i + 1] == lines[1..][i];
    }
  }

  /**
   * After `parseKeysJson` a key is in the table exactly when it was there
   * before or some line yields it; every key a line yields maps to "" (an
   * earlier value is reset), every other key keeps its value.
   */
  lemma {:induction false} KeysAddedEntries(m: map<string, string>, lines: seq<string>, key: string)
    ensures key in KeysAdded(m, lines) <==> key in m || KeyLine(lines, key)
    ensures key in KeysAdded(m, lines) ==>
              KeysAdded(m, lines)[key] == if KeyLine(lines, key) then "" else m[key]
    decreases |lines|
  {
    if lines != [] {
      KeyLineCons(lines, key);
      KeysAddedEntries(AddKey(m, lines[0]), lines[1..], key);
    }
  }

  /** Whether a hardware-handoff line gives `key` a new value. */
  predicate Updates(line: string, key: string) {
    Contains(line, key) && ExtractValue(line) != ""
  }

  /** The table after one hardware-handoff line. */
  function LineUpdate(m: map<string, string>, line: string): (r: map<string, string>)
    ensures r.Keys == m.Keys
  {
    map k | k in m :: if Updates(line, k) then ExtractValue(line) else m[k]
  }

  /** The table after the hardware-handoff lines, in order. */
  function ValuesFrom(m: map<string, string>, lines: seq<string>): (r: map<string, string>)
    ensures r.Keys == m.Keys
    decreases |lines|
  {
    if lines == [] then m else ValuesFrom(LineUpdate(m, lines[0]), lines[1..])
  }

  /** The value of the last line that updates `key`, or `v` when none does. */
  function LastValue(lines: seq<string>, key: string, v: string): string
    decreases |lines|
  {
    if lines == [] then v
    else if Updates(lines[|lines| - 1], key) then ExtractValue(lines[|lines| - 1])
    else LastValue(lines[..|lines| - 1], key, v)
  }

  lemma {:induction false} ValuesFromAppend(m: map<string, string>, lines: seq<string>, line: string)
    ensures ValuesFrom(m, lines + [line]) == LineUpdate(ValuesFrom(m, lines), line)
    decreases |lines|
  {
    if lines == [] {
      assert [] + [line] == [line];
      assert [line][1..] == [];
    } else {
      assert (lines + [line])[1..] == lines[1..] + [line];
      ValuesFromAppend(LineUpdate(m, lines[0]), lines[1..], line);
    }
  }

  /**
   * After `parseFile`'s scan every key holds the value of the last line that
   * mentions it with a non-empty `VALUE`: later lines overwrite earlier ones,
   * and a line with an empty value changes nothing.
   */
  lemma {:induction false} ValuesFromLastValue(m: map<string, string>, lines: seq<string>, key: string)
    requires key in m
    ensures ValuesFrom(m, lines)[key] == LastValue(lines, key, m[key])
    decreases |lines|
  {
    if lines != [] {
      var init := lines[..|lines| - 1];
      assert lines == init + [lines[|lines| - 1]];
      ValuesFromAppend(m, init, lines[|lines| - 1]);
      ValuesFromLastValue(m, init, key);
    }
  }

  /** The last updating line decides the value. */
  lemma {:induction false} LastValueIsLastUpdate(lines: seq<string>, key: string, v: string, i: nat)
    requires i < |lines| && Updates(lines[i], key)
    requires forall j | i < j < |lines| :: !Updates(lines[j], key)
    ensures LastValue(lines, key, v) == ExtractValue(lines[i])
    decreases |lines|
  {
    if i < |lines| - 1 {
      var init := lines[..|lines| - 1];
      assert init[i] == lines[i];
      LastValueIsLastUpdate(init, key, v, i);
    }
  }

  /** A key no line updates keeps its value. */
  lemma {:induction false} LastValueWithoutUpdate(lines: seq<string>, key: string, v: string)
    requires forall j | 0 <= j < |lines| :: !Updates(lines[j], key)
    ensures LastValue(lines, key, v) == v
    decreases |lines|
  {
    if lines != [] {
      var init := lines[..|lines| - 1];
      assert forall j | 0 <= j < |init| :: init[j] == lines[j];
      LastValueWithoutUpdate(init, key, v);
    }
  }

  /** The `std::unordered_map<std::string, std::string>` the loader fills. */
  class KeysMap {
    var entries: map<string, string>

    constructor ()
      ensures entries == map[]
    {
      entries := map[];
    }

    /** `keysMap[key]` on a non-const map: reads, inserting "" for a missing key. */
    method Get(key: string) returns (v: string)
      modifies this
      ensures v == Lookup(old(entries), key)
      ensures entries == if key in old(entries) then old(entries) else old(entries)[key := ""]
    {
      if key !in entries {
        entries := entries[key := ""];
      }
      v := entries[key];
    }

    /** `parseKeysJson`: one empty entry per key line; nothing when the file cannot be opened. */
    method ParseKeysJson(file: Option<seq<string>>)
      modifies this
      ensures entries == if file.None? then old(entries) else KeysAdded(old(entries), file.value)
    {
      if file.None? {
        return;
      }
      var lines := file.value;
      var i := 0;
      assert lines[0..] == lines;
      while i < |lines|
        invariant i <= |lines|
        invariant KeysAdded(entries, lines[i..]) == KeysAdded(old(entries), lines)
      {
        assert lines[i..][1..] == lines[i + 1..];
        var key := KeyOfLine(lines[i]);
        if key.Some? {
          entries := entries[key.value := ""];
        }
        i := i + 1;
      }
    }

    /** The inner loop of `parseFile`: every key the line mentions takes its non-empty value. */
    method UpdateWithLine(line: string)
      modifies this
      ensures entries == LineUpdate(old(entries), line)
    {
      var todo := entries.Keys;
      while todo != {}
        invariant todo <= old(entries).Keys && entries.Keys == old(entries).Keys
        invariant forall k | k in entries ::
                    entries[k] == if k in todo then old(entries)[k] else LineUpdate(old(entries), line)[k]
        decreases |todo|
      {
        var key :| key in todo;
        if Contains(line, key) {
          var value := ExtractValue(line);
          if value != "" {
            entries := entries[key := value];
          }
        }
        todo := todo - {key};
      }
    }

    /**
     * `parseFile`: reads the keys file, then lets every hardware-handoff line
     * update the keys it mentions; a design file that cannot be opened leaves
     * the table as the keys file made it.
     */
    method ParseFile(design: Option<seq<string>>, keysFile: Option<seq<string>>)
      modifies this
      ensures var m := if keysFile.None? then old(entries) else KeysAdded(old(entries), keysFile.value);
              entries == if design.None? then m else ValuesFrom(m, design.value)
    {
      ParseKeysJson(keysFile);
      if design.None? {
        return;
      }
      ghost var m := entries;
      var lines := design.value;
      var i := 0;
      assert lines[0..] == lines;
      while i < |lines|
        invariant i <= |lines|
        invariant ValuesFrom(entries, lines[i..]) == ValuesFrom(m, lines)
      {
        assert lines[i..][1..] == lines[i + 1..];
        UpdateWithLine(lines[i]);
        i := i + 1;
      }
    }
  }

  // ---------------------------------------------------------------------
  // std::stoi and std::to_string
  // ---------------------------------------------------------------------

  /** The errors the loader's parsing can throw. */
  datatype ParseError =
    | InvalidArgument     // std::invalid_argument from std::stoi: no digits
    | OutOfRange          // std::out_of_range from std::stoi: not an int
    | InvalidClockSource  // std::runtime_error("Invalid clock source")

  const INT_MIN: int := -0x8000_0000
  const INT_MAX: int := 0x7FFF_FFFF

  /** The characters `isspace` accepts in the "C" locale. */
  predicate IsCSpace(c: char) {
    c == ' ' || c == '\t' || c == '\n' || c == '\r' || c == 11 as char || c == 12 as char
  }

  predicate IsDigit(c: char) {
    '0' <= c <= '9'
  }

  function CSpaces(s: string): (n: nat)
    ensures n <= |s| && (n < |s| ==> !IsCSpace(s[n]))
  {
    if s == [] || !IsCSpace(s[0]) then 0 else 1 + CSpaces(s[1..])
  }

  /** The length of the run of digits `s` starts with. */
  function DigitRun(s: string): (n: nat)
    ensures n <= |s| && forall i | 0 <= i < n :: IsDigit(s[i])
  {
    if s == [] || !IsDigit(s[0]) then 0 else 1 + DigitRun(s[1..])
  }

  /** The number a string of decimal digits spells. */
  function DigitsValue(ds: string): nat
    requires forall i | 0 <= i < |ds| :: IsDigit(ds[i])
    decreases |ds|
  {
    if ds == [] then 0
    else
      assert IsDigit(ds[|ds| - 1]);
      10 * DigitsValue(ds[..|ds| - 1]) + (ds[|ds| - 1] as int - '0' as int)
  }

  /**
   * `std::stoi(s)`: skips leading white space, reads an optional sign and the
   * longest run of digits after it (ignoring whatever follows), and throws when
   * there is no digit or the number does not fit in an `int`.
   */
  function Stoi(s: string): (r: Result<int, ParseError>)
    ensures r.Ok? ==> INT_MIN <= r.value <= INT_MAX
    ensures (forall i | 0 <= i < |s| :: IsCSpace(s[i])) ==> r == Err(InvalidArgument)
  {
    var body := s[CSpaces(s)..];
    var sign := if |body| > 0 && (body[0] == '-' || body[0] == '+') then 1 else 0;
    var n := DigitRun(body[sign..]);
    if n == 0 then Err(InvalidArgument)
    else
      assert forall i | 0 <= i < n :: body[sign .. sign + n][i] == body[sign..][i];
      var magnitude := DigitsValue(body[sign .. sign + n]);
      var x: int := if sign == 1 && body[0] == '-' then -(magnitude as int) else magnitude;
      if x < INT_MIN || x > INT_MAX then Err(OutOfRange) else Ok(x)
  }

  /** `std::to_string` of a natural number. */
  function Decimal(n: nat): (s: string)
    ensures |s| >= 1 && forall i | 0 <= i < |s| :: IsDigit(s[i])
  {
    if n < 10 then [('0' as int + n) as char]
    else Decimal(n / 10) + [('0' as int + n % 10) as char]
  }

  lemma {:induction false} DecimalValue(n: nat)
    ensures DigitsValue(Decimal(n)) == n
  {
    if n >= 10 {
      var s := Decimal(n);
      assert s[..|s| - 1] == Decimal(n / 10);
      DecimalValue(n / 10);
    }
  }

  lemma {:induction false} DigitRunAll(s: string)
    requires forall i | 0 <= i < |s| :: IsDigit(s[i])
    ensures DigitRun(s) == |s|
  {
    if s != [] {
      DigitRunAll(s[1..]);
    }
  }

  /** `std::stoi` reads back what `std::to_string` writes. */
  lemma StoiOfDecimal(n: nat)
    requires n <= INT_MAX
    ensures Stoi(Decimal(n)) == Ok(n)
  {
    var s := Decimal(n);
    assert !IsCSpace(s[0]);
    assert s[0..] == s && s[0 .. |s|] == s;
    DigitRunAll(s);
    DecimalValue(n);
  }

  // ---------------------------------------------------------------------
  // getRegs
  // ---------------------------------------------------------------------

  /** `clock_regs_t`: one PL clock as the hardware handoff describes it. */
  datatype ClockRegs = ClockRegs(clkIdx: u8, div0: u8, div1: u8, en: bool,
                                 clkSrc: u8, fbdiv: u8, div2: u8, preSrc: u8)

  /** The SRCSEL names `getRegs` accepts, with the PL source index each stands for. */
  function SourceIndex(name: string): (code: Option<u8>)
    ensures code.Some? <==> name in {"IOPLL", "RPLL", "APLL"}
    ensures code.Some? ==> code.value in {0, 2, 3}
  {
    if name == "IOPLL" then Some(0)
    else if name == "RPLL" then Some(2)
    else if name == "APLL" then Some(3)
    else None
  }

  function EnableKey(i: nat): string {
    "PSU__FPGA_PL" + Decimal(i) + "_ENABLE"
  }

  function PlKey(i: nat, field: string): string {
    "PSU__CRL_APB__PL" + Decimal(i) + "_REF_CTRL__" + field
  }

  function PllKey(source: string, field: string): string {
    "PSU__CRL_APB__" + source + "_CTRL__" + field
  }

  /**
   * The effect of (part of) one iteration of `getRegs`' loop: the entry as it
   * is left, the keys looked up so far (each inserted when missing), and what
   * is thrown.
   */
  datatype EntryOutcome = EntryOutcome(regs: ClockRegs, looked: set<string>, error: Option<ParseError>)

  /**
   * Iteration i of `getRegs` on entry r: the index is set, the enable flag is
   * parsed, and a disabled entry ends there. A field is written only once its
   * value has been parsed, so a throw leaves the fields before it written.
   */
  function EntryOf(i: nat, r: ClockRegs, m: map<string, string>): (o: EntryOutcome)
    requires i < 4
    ensures o.regs.clkIdx == i && EnableKey(i) in o.looked
  {
    var k0 := EnableKey(i);
    var r1 := r.(clkIdx := i);
    match Stoi(Lookup(m, k0))
    case Err(e) => EntryOutcome(r1, {k0}, Some(e))
    case Ok(en) =>
      if en != 1 then EntryOutcome(r1.(en := false), {k0}, None)
      else PlPart(i, r1.(en := true), m, {k0})
  }

  /** The PL reference-clock part of an enabled entry: both divisors and the source. */
  function PlPart(i: nat, r: ClockRegs, m: map<string, string>, looked: set<string>): (o: EntryOutcome)
    ensures o.regs.clkIdx == r.clkIdx && o.regs.en == r.en && looked <= o.looked
  {
    var k1 := PlKey(i, "DIVISOR0");
    match Stoi(Lookup(m, k1))
    case Err(e) => EntryOutcome(r, looked + {k1}, Some(e))
    case Ok(d0) =>
      var k2 := PlKey(i, "DIVISOR1");
      match Stoi(Lookup(m, k2))
      case Err(e) => EntryOutcome(r.(div0 := ToU8(d0)), looked + {k1, k2}, Some(e))
      case Ok(d1) =>
        var k3 := PlKey(i, "SRCSEL");
        var r' := r.(div0 := ToU8(d0), div1 := ToU8(d1));
        var source := Lookup(m, k3);
        match SourceIndex(source)
        case None => EntryOutcome(r', looked + {k1, k2, k3}, Some(InvalidClockSource))
        case Some(code) => PllPart(source, r'.(clkSrc := code), m, looked + {k1, k2, k3})
  }

  /** The PLL part of an enabled entry: feedback divisor, DIV2 and the PLL's own source. */
  function PllPart(source: string, r: ClockRegs, m: map<string, string>, looked: set<string>): (o: EntryOutcome)
    ensures o.regs.clkIdx == r.clkIdx && o.regs.en == r.en && o.regs.clkSrc == r.clkSrc
    ensures looked <= o.looked
    ensures o.error.None? ==> o.regs.preSrc == 0 && Lookup(m, PllKey(source, "SRCSEL")) == "PSS_REF_CLK"
  {
    var k4 := PllKey(source, "FBDIV");
    match Stoi(Lookup(m, k4))
    case Err(e) => EntryOutcome(r, looked + {k4}, Some(e))
    case Ok(fb) =>
      var k5 := PllKey(source, "DIV2");
      match Stoi(Lookup(m, k5))
      case Err(e) => EntryOutcome(r.(fbdiv := ToU8(fb)), looked + {k4, k5}, Some(e))
      case Ok(d2) =>
        var k6 := PllKey(source, "SRCSEL");
        var r' := r.(fbdiv := ToU8(fb), div2 := ToU8(d2));
        if Lookup(m, k6) != "PSS_REF_CLK" then EntryOutcome(r', looked + {k4, k5, k6}, Some(InvalidClockSource))
        else EntryOutcome(r'.(preSrc := 0), looked + {k4, k5, k6}, None)
  }

  /** A disabled entry gets its index and `en = false` and keeps every other field. */
  lemma EntryDisabled(i: nat, r: ClockRegs, m: map<string, string>, v: int)
    requires i < 4 && Stoi(Lookup(m, EnableKey(i))) == Ok(v) && v != 1
    ensures EntryOf(i, r, m) == EntryOutcome(r.(clkIdx := i, en := false), {EnableKey(i)}, None)
  {
  }

  /** A missing enable flag throws `std::invalid_argument`. */
  lemma EntryWithoutEnable(i: nat, r: ClockRegs, m: map<string, string>)
    requires i < 4 && EnableKey(i) !in m
    ensures EntryOf(i, r, m).error == Some(InvalidArgument)
  {
    assert Lookup(m, EnableKey(i)) == "";
  }

  /**
   * An enabled entry that parses completely has the enable flag 1, its source
   * index from the SRCSEL name (IOPLL 0, RPLL 2, APLL 3), a PLL fed from
   * PSS_REF_CLK, and `pre_src = 0`.
   */
  lemma EntryEnabled(i: nat, r: ClockRegs, m: map<string, string>)
    requires i < 4 && EntryOf(i, r, m).error.None? && EntryOf(i, r, m).regs.en
    ensures var source := Lookup(m, PlKey(i, "SRCSEL"));
            && Stoi(Lookup(m, EnableKey(i))) == Ok(1)
            && SourceIndex(source) == Some(EntryOf(i, r, m).regs.clkSrc)
            && Lookup(m, PllKey(source, "SRCSEL")) == "PSS_REF_CLK"
            && EntryOf(i, r, m).regs.preSrc == 0
  {
    var source := Lookup(m, PlKey(i, "SRCSEL"));
    assert Stoi(Lookup(m, EnableKey(i))) == Ok(1);
    var r1 := r.(clkIdx := i, en := true);
    var d0 := Stoi(Lookup(m, PlKey(i, "DIVISOR0")));
    var d1 := Stoi(Lookup(m, PlKey(i, "DIVISOR1")));
    assert d0.Ok? && d1.Ok? && SourceIndex(source).Some?;
  }

  /** An enabled entry whose SRCSEL is none of IOPLL, RPLL, APLL throws. */
  lemma EntryWithUnknownSource(i: nat, r: ClockRegs, m: map<string, string>)
    requires i < 4 && Stoi(Lookup(m, EnableKey(i))) == Ok(1)
    requires Stoi(Lookup(m, PlKey(i, "DIVISOR0"))).Ok? && Stoi(Lookup(m, PlKey(i, "DIVISOR1"))).Ok?
    requires SourceIndex(Lookup(m, PlKey(i, "SRCSEL"))).None?
    ensures EntryOf(i, r, m).error == Some(InvalidClockSource)
  {
  }

  /** Two tables that answer every lookup alike. */
  ghost predicate SameLookups(m: map<string, string>, m0: map<string, string>) {
    forall k :: Lookup(m, k) == Lookup(m0, k)
  }

  lemma SameLookupsTrans(a: map<string, string>, b: map<string, string>, c: map<string, string>)
    requires SameLookups(a, b) && SameLookups(b, c)
    ensures SameLookups(a, c)
  {
  }

  /** Looking keys up changes no answer to a lookup. */
  lemma TouchedLookups(m: map<string, string>, looked: set<string>)
    ensures SameLookups(Touched(m, looked), m)
  {
  }

  /** Two tables with the same lookups give the same iteration. */
  lemma PllPartLookups(source: string, r: ClockRegs, m: map<string, string>, m0: map<string, string>, looked: set<string>)
    requires SameLookups(m, m0)
    ensures PllPart(source, r, m, looked) == PllPart(source, r, m0, looked)
  {
    assert Lookup(m, PllKey(source, "FBDIV")) == Lookup(m0, PllKey(source, "FBDIV"));
    assert Lookup(m, PllKey(source, "DIV2")) == Lookup(m0, PllKey(source, "DIV2"));
    assert Lookup(m, PllKey(source, "SRCSEL")) == Lookup(m0, PllKey(source, "SRCSEL"));
  }

  lemma PlPartLookups(i: nat, r: ClockRegs, m: map<string, string>, m0: map<string, string>, looked: set<string>)
    requires SameLookups(m, m0)
    ensures PlPart(i, r, m, looked) == PlPart(i, r, m0, looked)
  {
    assert Lookup(m, PlKey(i, "DIVISOR0")) == Lookup(m0, PlKey(i, "DIVISOR0"));
    assert Lookup(m, PlKey(i, "DIVISOR1")) == Lookup(m0, PlKey(i, "DIVISOR1"));
    var source := Lookup(m, PlKey(i, "SRCSEL"));
    assert source == Lookup(m0, PlKey(i, "SRCSEL"));
    forall r': ClockRegs, s: set<string> {
      PllPartLookups(source, r', m, m0, s);
    }
  }

  lemma EntryOfLookups(i: nat, r: ClockRegs, m: map<string, string>, m0: map<string, string>)
    requires i < 4 && SameLookups(m, m0)
    ensures EntryOf(i, r, m) == EntryOf(i, r, m0)
  {
    assert Lookup(m, EnableKey(i)) == Lookup(m0, EnableKey(i));
    PlPartLookups(i, r.(clkIdx := i, en := true), m, m0, {EnableKey(i)});
  }

  /** `getRegs` from entry i on: the entries, the table and what is thrown. */
  function RegsFrom(i: nat, rs: seq<ClockRegs>, m: map<string, string>)
    : (seq<ClockRegs>, map<string, string>, Option<ParseError>)
    requires i <= 4 <= |rs|
    decreases 4 - i
  {
    if i == 4 then (rs, m, None)
    else
      var o := EntryOf(i, rs[i], m);
      var rs' := rs[i := o.regs];
      var m' := Touched(m, o.looked);
      if o.error.Some? then (rs', m', o.error) else RegsFrom(i + 1, rs', m')
  }

  /**
   * When `getRegs` throws nothing, each of the four entries is what its own
   * iteration makes of it against the original table (so entry j has
   * `clk_idx = j`), every iteration succeeds, and entries past the fourth are
   * untouched.
   */
  lemma {:induction false} RegsFromEntries(i: nat, rs: seq<ClockRegs>, m: map<string, string>, m0: map<string, string>)
    requires i <= 4 <= |rs|
    requires SameLookups(m, m0)
    requires RegsFrom(i, rs, m).2.None?
    ensures |RegsFrom(i, rs, m).0| == |rs|
    ensures forall j | i <= j < 4 :: EntryOf(j, rs[j], m0).error.None?
    ensures forall j | i <= j < 4 :: RegsFrom(i, rs, m).0[j] == EntryOf(j, rs[j], m0).regs
    ensures forall j | 0 <= j < |rs| && (j < i || 4 <= j) :: RegsFrom(i, rs, m).0[j] == rs[j]
    decreases 4 - i
  {
    if i < 4 {
      var o := EntryOf(i, rs[i], m);
      var m' := Touched(m, o.looked);
      var rs' := rs[i := o.regs];
      assert o == EntryOf(i, rs[i], m0) by {
        EntryOfLookups(i, rs[i], m, m0);
      }
      assert SameLookups(m', m0) by {
        TouchedLookups(m, o.looked);
        SameLookupsTrans(m', m, m0);
      }
      assert o.error.None? && RegsFrom(i, rs, m) == RegsFrom(i + 1, rs', m');
      RegsFromEntries(i + 1, rs', m', m0);
      forall j | i <= j < 4
        ensures EntryOf(j, rs[j], m0).error.None?
        ensures RegsFrom(i, rs, m).0[j] == EntryOf(j, rs[j], m0).regs
      {
        if j > i {
          assert rs'[j] == rs[j];
        }
      }
    }
  }

  /** The PLL half of one `getRegs` iteration, from FBDIV on. */
  method ParsePll(source: string, r: ClockRegs, keys: KeysMap,
                  ghost m: map<string, string>, ghost looked: set<string>)
    returns (entry: ClockRegs, error: Option<ParseError>)
    requires keys.entries == Touched(m, looked)
    modifies keys
    ensures var o := PllPart(source, r, m, looked);
            entry == o.regs && error == o.error && keys.entries == Touched(m, o.looked)
  {
    entry := r;
    var k4 := PllKey(source, "FBDIV");
    TouchedStep(m, looked, k4);
    var fbText := keys.Get(k4);
    var fb := Stoi(fbText);
    if fb.Err? {
      return entry, Some(fb.error);
    }
    entry := entry.(fbdiv := ToU8(fb.value));
    var k5 := PllKey(source, "DIV2");
    TouchedStep(m, looked + {k4}, k5);
    assert looked + {k4} + {k5} == looked + {k4, k5};
    var div2Text := keys.Get(k5);
    var d2 := Stoi(div2Text);
    if d2.Err? {
      return entry, Some(d2.error);
    }
    entry := entry.(div2 := ToU8(d2.value));
    var k6 := PllKey(source, "SRCSEL");
    TouchedStep(m, looked + {k4, k5}, k6);
    assert looked + {k4, k5} + {k6} == looked + {k4, k5, k6};
    var pllSource := keys.Get(k6);
    if pllSource != "PSS_REF_CLK" {
      return entry, Some(InvalidClockSource);
    }
    entry := entry.(preSrc := 0);
    error := None;
  }

  /** The PL reference-clock half of one `getRegs` iteration. */
  method ParsePl(i: nat, r: ClockRegs, keys: KeysMap,
                 ghost m: map<string, string>, ghost looked: set<string>)
    returns (entry: ClockRegs, error: Option<ParseError>)
    requires keys.entries == Touched(m, looked)
    modifies keys
    ensures var o := PlPart(i, r, m, looked);
            entry == o.regs && error == o.error && keys.entries == Touched(m, o.looked)
  {
    entry := r;
    var k1 := PlKey(i, "DIVISOR0");
    TouchedStep(m, looked, k1);
    var divisor0 := keys.Get(k1);
    var d0 := Stoi(divisor0);
    if d0.Err? {
      return entry, Some(d0.error);
    }
    entry := entry.(div0 := ToU8(d0.value));
    var k2 := PlKey(i, "DIVISOR1");
    TouchedStep(m, looked + {k1}, k2);
    assert looked + {k1} + {k2} == looked + {k1, k2};
    var divisor1 := keys.Get(k2);
    var d1 := Stoi(divisor1);
    if d1.Err? {
      return entry, Some(d1.error);
    }
    entry := entry.(div1 := ToU8(d1.value));
    var k3 := PlKey(i, "SRCSEL");
    TouchedStep(m, looked + {k1, k2}, k3);
    assert looked + {k1, k2} + {k3} == looked + {k1, k2, k3};
    var source := keys.Get(k3);
    var code := SourceIndex(source);
    if code.None? {
      return entry, Some(InvalidClockSource);
    }
    entry := entry.(clkSrc := code.value);
    entry, error := ParsePll(source, entry, keys, m, looked + {k1, k2, k3});
  }

  /**
   * One iteration of `getRegs`' loop on entry r: the entry as the iteration
   * leaves it, whether it ends normally or throws.
   */
  method ParseEntry(i: nat, r: ClockRegs, keys: KeysMap) returns (entry: ClockRegs, error: Option<ParseError>)
    requires i < 4
    modifies keys
    ensures var o := EntryOf(i, r, old(keys.entries));
            entry == o.regs && error == o.error && keys.entries == Touched(old(keys.entries), o.looked)
  {
    ghost var m := keys.entries;
    assert m == Touched(m, {}) by {
      assert forall k | k in m :: k in Touched(m, {});
    }
    entry := r.(clkIdx := i);
    var k0 := EnableKey(i);
    TouchedStep(m, {}, k0);
    assert {} + {k0} == {k0};
    var enable := keys.Get(k0);
    var en := Stoi(enable);
    if en.Err? {
      return entry, Some(en.error);
    }
    entry := entry.(en := en.value == 1);
    if en.value != 1 {
      return entry, None;
    }
    entry, error := ParsePl(i, entry, keys, m, {k0});
  }

  /**
   * `getRegs`: fills the four entries in order, stopping at the first entry
   * that throws (the entries before it, and the part of it already parsed,
   * stay written).
   */
  method GetRegs(regs: array<ClockRegs>, keys: KeysMap) returns (error: Option<ParseError>)
    requires regs.Length >= 4
    modifies regs, keys
    ensures (regs[..], keys.entries, error) == RegsFrom(0, old(regs[..]), old(keys.entries))
  {
    var i := 0;
    while i < 4
      invariant i <= 4
      invariant RegsFrom(i, regs[..], keys.entries) == RegsFrom(0, old(regs[..]), old(keys.entries))
    {
      var entry;
      entry, error := ParseEntry(i, regs[i], keys);
      regs[i] := entry;
      if error.Some? {
        return;
      }
      i := i + 1;
    }
    error := None;
  }

  // ---------------------------------------------------------------------
  // writeJsonOutput
  // ---------------------------------------------------------------------

  /** One entry line of the output, without its line feed. */
  function JsonEntry(key: string, value: string, comma: bool): string {
    var pair := "  \"" + key + "\" : \"" + value + "\"";
    if comma then pair + "," else pair
  }

  /** `order` lists every key of m exactly once: the map's iteration order. */
  ghost predicate Enumerates(order: seq<string>, m: map<string, string>) {
    && (forall i, j | 0 <= i < j < |order| :: order[i] != order[j])
    && (forall k :: k in m <==> k in order)
  }

  /** The lines `writeJsonOutput` writes: `{`, one entry per key with a comma after all but the last, `}`. */
  function OutputLines(m: map<string, string>, order: seq<string>): (lines: seq<string>)
    requires forall i | 0 <= i < |order| :: order[i] in m
    ensures |lines| == |order| + 2 && lines[0] == "{" && lines[|lines| - 1] == "}"
    ensures forall i | 0 <= i < |order| :: lines[i + 1] == JsonEntry(order[i], m[order[i]], i + 1 < |order|)
  {
    ["{"] + seq(|order|, i requires 0 <= i < |order| => JsonEntry(order[i], m[order[i]], i + 1 < |order|)) + ["}"]
  }

  /** Lines written one after another, each ended by a line feed. */
  function Joined(lines: seq<string>): string
    decreases |lines|
  {
    if lines == [] then "" else Joined(lines[..|lines| - 1]) + lines[|lines| - 1] + "\n"
  }

  lemma JoinedPrefix(lines: seq<string>, n: nat)
    requires n < |lines|
    ensures Joined(lines[..n + 1]) == Joined(lines[..n]) + lines[n] + "\n"
  {
    assert lines[..n + 1][..n] == lines[..n];
  }

  /** The output up to and including entry i. */
  lemma OutputPrefix(m: map<string, string>, order: seq<string>, i: nat)
    requires forall j | 0 <= j < |order| :: order[j] in m
    requires i < |order|
    ensures Joined(OutputLines(m, order)[..i + 2]) ==
            Joined(OutputLines(m, order)[..i + 1]) + JsonEntry(order[i], m[order[i]], i + 1 < |order|) + "\n"
  {
    JoinedPrefix(OutputLines(m, order), i + 1);
  }

  /** `writeJsonOutput`: the text of the output file, "" when it cannot be created. */
  method WriteJsonOutput(m: map<string, string>, order: seq<string>, created: bool) returns (text: string)
    requires forall i | 0 <= i < |order| :: order[i] in m
    ensures text == if created then Joined(OutputLines(m, order)) else ""
  {
    if !created {
      return "";
    }
    text := "{\n";
    JoinedPrefix(OutputLines(m, order), 0);
    var i := 0;
    while i < |order|
      invariant i <= |order|
      invariant text == Joined(OutputLines(m, order)[..i + 1])
    {
      var key := order[i];
      var line := "  \"" + key + "\" : \"" + m[key] + "\"";
      if i + 1 < |order| {
        line := line + ",";
      }
      assert line == JsonEntry(key, m[key], i + 1 < |order|);
      assert text + line + "\n" == Joined(OutputLines(m, order)[..i + 2]) by {
        OutputPrefix(m, order, i);
      }
      text := text + line + "\n";
      i := i + 1;
    }
    assert text + "}\n" == Joined(OutputLines(m, order)) by {
      JoinedPrefix(OutputLines(m, order), |order| + 1);
      assert OutputLines(m, order)[..|order| + 2] == OutputLines(m, order);
    }
    text := text + "}\n";
  }

  /** The braces around the entries name no key. */
  lemma BracesNameNoKey()
    ensures KeyOfLine("{") == None && KeyOfLine("}") == None
  {
    forall k: nat
      ensures !OccursAt("{", ":", k) && !OccursAt("}", ":", k)
    {
      OccursAtChar("{", ':', k);
      OccursAtChar("}", ':', k);
    }
    FindAbsent("{", ":", 0);
    FindAbsent("}", ":", 0);
  }

  /** A key the output can be read back from: trimmed, with no colon or double quote. */
  predicate CleanKey(k: string) {
    Plain(k) && Trim(k) == k && |k| < TWO_64
  }

  /** Entry line i + 1 of the output names key i. */
  lemma OutputLineKey(m: map<string, string>, order: seq<string>, i: nat)
    requires forall j | 0 <= j < |order| :: order[j] in m
    requires i < |order| && CleanKey(order[i])
    ensures KeyOfLine(OutputLines(m, order)[i + 1]) == Some(order[i])
  {
    JsonEntryKey(order[i], m[order[i]], i + 1 < |order|);
  }

  /** An entry line names its key. */
  lemma JsonEntryKey(key: string, value: string, comma: bool)
    requires CleanKey(key)
    ensures KeyOfLine(JsonEntry(key, value, comma)) == Some(key)
  {
    var rest := " \"" + value + "\"" + (if comma then "," else "");
    assert Plain("  ");
    assert JsonEntry(key, value, comma) == "  " + "\"" + key + "\" :" + rest;
    KeyOfSpacedLine("  ", key, rest);
  }

  /** A line of the output that names a key names one of the keys of m. */
  lemma OutputLineNamesKeyOfMap(m: map<string, string>, order: seq<string>, j: nat, k: string)
    requires forall i | 0 <= i < |order| :: order[i] in m
    requires forall k | k in m :: CleanKey(k)
    requires j < |order| + 2 && KeyOfLine(OutputLines(m, order)[j]) == Some(k)
    ensures k in m
  {
    assert 0 < j < |order| + 1 by {
      BracesNameNoKey();
    }
    assert order[j - 1] in m;
    OutputLineKey(m, order, j - 1);
  }

  /** The output has a key line for exactly the keys of m. */
  lemma OutputNamesKeys(m: map<string, string>, order: seq<string>, k: string)
    requires Enumerates(order, m)
    requires forall k | k in m :: CleanKey(k)
    ensures KeyLine(OutputLines(m, order), k) <==> k in m
  {
    var lines := OutputLines(m, order);
    if k in m {
      var i :| 0 <= i < |order| && order[i] == k;
      OutputLineKey(m, order, i);
      assert KeyOfLine(lines[i + 1]) == Some(k);
    }
    if KeyLine(lines, k) {
      var j :| 0 <= j < |lines| && KeyOfLine(lines[j]) == Some(k);
      OutputLineNamesKeyOfMap(m, order, j, k);
    }
  }

  /**
   * The output read back as a keys file gives back exactly the keys written,
   * each with an empty value, when the keys are trimmed and hold no colon or
   * double quote.
   */
  lemma KeysOfOutput(m: map<string, string>, order: seq<string>)
    requires Enumerates(order, m)
    requires forall k | k in m :: CleanKey(k)
    ensures KeysAdded(map[], OutputLines(m, order)) == map k | k in m :: ""
  {
    var lines := OutputLines(m, order);
    var got := KeysAdded(map[], lines);
    forall k
      ensures k in got <==> k in m
      ensures k in got ==> got[k] == ""
    {
      KeysAddedEntries(map[], lines, k);
      OutputNamesKeys(m, order, k);
    }
  }
}
