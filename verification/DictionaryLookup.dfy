/** The two dictionary lookups: lookup1.c of SP_HW4/part3 scans a file of records whose words end
    in a newline, lookup5.c of SP_HW11 calls bsearch on a sorted table of bare words. */
module DictionaryLookup {
  import opened CStrings
  import opened DictionaryFile

  const FOUND := 0
  const NOTFOUND := 1

  /** Both fields are full length and hold a NUL. */
  predicate IsRecord(r: Record) {
    |r.word| == WORD && |r.text| == TEXT && StrLen(r.word) < WORD && StrLen(r.text) < TEXT
  }

  predicate IsTable(table: seq<Record>) { forall i :: 0 <= i < |table| ==> IsRecord(table[i]) }

  function Keys(table: seq<Record>): (keys: seq<string>)
    ensures |keys| == |table|
  {
    seq(|table|, i requires 0 <= i < |table| => CStr(table[i].word))
  }

  // ----- order

  predicate Sorted(keys: seq<string>) {
    forall i, j :: 0 <= i < j < |keys| ==> StrCmp(keys[i], keys[j]) <= 0
  }

  predicate StrictlySorted(keys: seq<string>) {
    forall i, j :: 0 <= i < j < |keys| ==> StrCmp(keys[i], keys[j]) < 0
  }

  lemma Below(a: string, b: string, c: string)
    requires StrCmp(a, b) < 0 && StrCmp(b, c) <= 0
    ensures StrCmp(a, c) < 0
  {
    StrCmpZero(b, c);
    if StrCmp(b, c) < 0 {
      StrCmpTransitive(a, b, c);
    }
  }

  lemma Above(a: string, b: string, c: string)
    requires StrCmp(a, b) > 0 && StrCmp(c, b) <= 0
    ensures StrCmp(a, c) > 0
  {
    StrCmpZero(c, b);
    StrCmpZero(a, b);
    StrCmpZero(a, c);
    if StrCmp(c, b) < 0 {
      StrCmpTransitive(c, b, a);
    }
  }

  /** A newline behind two ordered words keeps their order exactly when the longer one does not
      go on with a character below the newline. */
  lemma {:induction false} NewlineKeepsOrderIff(a: string, b: string)
    requires StrCmp(a, b) < 0
    ensures StrCmp(a + "\n", b + "\n") < 0 <==> !(a < b && b[|a|] < '\n')
  {
    if a == [] {
      assert a + "\n" == "\n" && (b + "\n")[0] == b[0] && (a + "\n")[1..] == "";
    } else {
      assert (a + "\n")[0] == a[0] && (b + "\n")[0] == b[0];
      assert (a + "\n")[1..] == a[1..] + "\n" && (b + "\n")[1..] == b[1..] + "\n";
      assert a < b <==> a[0] == b[0] && a[1..] < b[1..] by {
        assert a == [a[0]] + a[1..] && b == [b[0]] + b[1..];
      }
      if a[0] == b[0] {
        NewlineKeepsOrderIff(a[1..], b[1..]);
      }
    }
  }

  function Newlined(keys: seq<string>): (r: seq<string>)
    ensures |r| == |keys|
  {
    seq(|keys|, i requires 0 <= i < |keys| => keys[i] + "\n")
  }

  /** "a" comes before "a" and a tab, but not with newlines behind. */
  lemma TabDisturbsOrder()
    ensures StrCmp("a", "a\t") < 0 && StrCmp("a" + "\n", "a\t" + "\n") > 0
  {
    assert "a\t"[1..] == "\t" && "a"[1..] == "";
    assert ("a" + "\n")[1..] == "\n" && ("a\t" + "\n")[1..] == "\t\n";
  }

  /** `b` continues `a` with a character below the newline. */
  predicate GoesBelow(a: string, b: string) { a < b && b[|a|] < '\n' }

  /** A strictly sorted table stays so exactly when no word goes on below the newline behind an
      earlier one. */
  lemma NewlineKeepsSortedIff(keys: seq<string>)
    requires StrictlySorted(keys)
    ensures StrictlySorted(Newlined(keys))
            <==> forall i, j :: 0 <= i < j < |keys| ==> !GoesBelow(keys[i], keys[j])
  {
    var lined := Newlined(keys);
    forall i, j | 0 <= i < j < |keys|
      ensures StrCmp(lined[i], lined[j]) < 0 <==> !GoesBelow(keys[i], keys[j])
    {
      NewlineKeepsOrderIff(keys[i], keys[j]);
    }
  }

  predicate AboveNewline(w: string) { forall i :: 0 <= i < |w| ==> w[i] > '\n' }

  /** Words of characters above the newline keep their order. */
  lemma NewlineKeepsSorted(keys: seq<string>)
    requires StrictlySorted(keys) && forall i :: 0 <= i < |keys| ==> AboveNewline(keys[i])
    ensures StrictlySorted(Newlined(keys))
  {
    forall i, j | 0 <= i < j < |keys|
      ensures !GoesBelow(keys[i], keys[j])
    {
      assert AboveNewline(keys[j]);
    }
    NewlineKeepsSortedIff(keys);
  }

  // ----- what a lookup answers

  /** Section 7.22.5.1 of ISO/IEC 9899:2011: some element that compares equal, or none if no
      element does. */
  predicate IsSearchResult(keys: seq<string>, key: string, i: nat) {
    if i < |keys| then keys[i] == key else i == |keys| && key !in keys
  }

  /** With strict order there is one answer only, and it is the first match. */
  lemma SearchIsFirst(keys: seq<string>, key: string, i: nat)
    requires StrictlySorted(keys) && IsSearchResult(keys, key, i)
    ensures i == First(keys, key)
  {
    var j := First(keys, key);
    if i < |keys| {
      assert j <= i;
      StrCmpZero(key, key);
    }
  }

  /** `lined` is `table` with a newline behind every word. */
  predicate SameButNewlines(table: seq<Record>, lined: seq<Record>) {
    && |lined| == |table| && Keys(lined) == Newlined(Keys(table))
    && forall i :: 0 <= i < |table| ==> lined[i].text == table[i].text
  }

  lemma {:induction false} FirstNewlined(keys: seq<string>, key: string)
    ensures First(Newlined(keys), key + "\n") == First(keys, key)
  {
    var i := First(keys, key);
    forall k | 0 <= k < i
      ensures Newlined(keys)[k] != key + "\n"
    {
      SameNewline(keys[k], key);
    }
    FirstIs(Newlined(keys), key + "\n", i);
  }

  lemma SameNewline(a: string, b: string)
    ensures a + "\n" == b + "\n" <==> a == b
  {
    assert (a + "\n")[..|a + "\n"| - 1] == a && (b + "\n")[..|b + "\n"| - 1] == b;
  }

  /** Whatever matching element bsearch returns on the bare table, the linear lookup on the
      newline table gives the same result and text. */
  lemma LookupsAgree(table: seq<Record>, lined: seq<Record>, key: string, i: nat)
    requires StrictlySorted(Keys(table)) && SameButNewlines(table, lined)
    requires IsSearchResult(Keys(table), key, i)
    ensures var j := First(Keys(lined), key + "\n");
      && (i < |table| <==> j < |lined|)
      && (i < |table| ==> CStr(table[i].text) == CStr(lined[j].text))
  {
    SearchIsFirst(Keys(table), key, i);
    FirstNewlined(Keys(table), key);
  }

  /** A file that convert wrote is a table, and the linear lookup finds exactly the words of its
      entries, the first entry of several. */
  lemma LookupConverted(entries: seq<Entry>, key: string)
    requires AllFit(entries) && forall i :: 0 <= i < |entries| ==> IsEntry(entries[i]) && NoNul(entries[i])
    ensures IsTable(Records(entries))
    ensures var i := First(Keys(Records(entries)), key + "\n");
      && (i < |entries| <==> exists e :: e in entries && e.word == key + "\n")
      && (i < |entries| ==> entries[i].word == key + "\n" && Strings(Records(entries)[i].text) == entries[i].lines)
      && (forall k :: 0 <= k < i ==> entries[k].word != key + "\n")
  {
    var table := Records(entries);
    forall i | 0 <= i < |entries|
      ensures IsRecord(table[i]) && Keys(table)[i] == entries[i].word && Strings(table[i].text) == entries[i].lines
    {
      RecordHolds(entries[i]);
      RecordIsTerminated(entries[i]);
    }
  }

  lemma {:induction false} TextEnds(lines: seq<string>)
    ensures lines != [] ==> TextOf(lines) != [] && TextOf(lines)[|TextOf(lines)| - 1] == '\0'
  {
    if |lines| > 1 {
      TextEnds(lines[1..]);
    }
  }

  lemma RecordIsTerminated(e: Entry)
    requires IsEntry(e) && NoNul(e) && Fits(e)
    ensures IsRecord(RecordOf(e))
  {
    RecordHolds(e);
    TextEnds(e.lines);
    assert RecordOf(e).text[if e.lines == [] then 0 else |TextOf(e.lines)| - 1] == '\0';
    HasNul(RecordOf(e).text, if e.lines == [] then 0 else |TextOf(e.lines)| - 1);
  }

  lemma HasNul(s: string, i: nat)
    requires i < |s| && s[i] == '\0'
    ensures StrLen(s) <= i
  {
  }

  // ----- the programs

  class Dictrec {
    const word: array<char>
    const text: array<char>

    ghost predicate Valid()
      reads this, word, text
    {
      word.Length == WORD && text.Length == TEXT && StrLen(word[..]) < WORD
    }

    function Key(): string
      reads word
    {
      CStr(word[..])
    }

    /** strcat(sought->word, "\n") */
    method AppendNewline()
      requires Valid() && |Key()| + 1 < WORD
      modifies word
      ensures word[..] == old(word[..])[old(|Key()|) := '\n'][old(|Key()|) + 1 := '\0']
      ensures Key() == old(Key()) + "\n"
    {
      ghost var before, key := word[..], Key();
      var n := StrLen(word[..]);
      word[n] := '\n';
      word[n + 1] := '\0';
      CStrOf(key + "\n", word[n + 1..]);
      assert word[..] == (key + "\n") + word[n + 1..];
    }

    /** sought->word[n - 1] = '\0', where n is the length with the newline. */
    method RemoveNewline(n: nat)
      requires Valid() && n == |Key()| > 0
      modifies word
      ensures word[..] == old(word[..])[n - 1 := '\0'] && Key() == old(Key())[..n - 1]
    {
      ghost var key := Key();
      word[n - 1] := '\0';
      CStrOf(key[..n - 1], word[n - 1..]);
      assert word[..] == key[..n - 1] + word[n - 1..];
    }

    /** The loop over the file: strcmp with every record until one matches. */
    method Scan(file: seq<Record>) returns (i: nat)
      requires Valid() && IsTable(file)
      ensures i == First(Keys(file), Key())
      ensures i < |file| ==> CStr(file[i].word) == Key()
    {
      i := 0;
      while i < |file| && StrCmp(CStr(file[i].word), CStr(word[..])) != 0
        invariant i <= |file|
        invariant forall k :: 0 <= k < i ==> Keys(file)[k] != Key()
      {
        StrCmpZero(CStr(file[i].word), Key());
        i := i + 1;
      }
      if i < |file| {
        StrCmpZero(CStr(file[i].word), Key());
      }
      FirstIs(Keys(file), Key(), i);
    }

    /** lookup1: a scan from the top, with the newline put behind the word and taken off again. */
    method LookupLinear(file: seq<Record>) returns (result: int)
      requires Valid() && |Key()| + 1 < WORD && IsTable(file)
      modifies word, text
      ensures Valid() && Key() == old(Key())
      ensures word[..] == old(word[..])[old(|Key()|) + 1 := '\0']
      ensures var i := First(Keys(file), old(Key()) + "\n");
        && result == (if i < |file| then FOUND else NOTFOUND)
        && text[..] == if i < |file| then file[i].text else old(text[..])
    {
      ghost var key, before := Key(), word[..];
      AppendNewline();
      var i := Scan(file);
      if i < |file| {
        RemoveNewline(StrLen(file[i].word));
        ReadText(file[i]);
        result := FOUND;
      } else {
        RemoveNewline(StrLen(word[..]));
        result := NOTFOUND;
      }
      assert (key + "\n")[..|key|] == key;
      assert before[|key| := '\n'][|key| + 1 := '\0'][|key| := '\0'] == before[|key| + 1 := '\0'];
    }

    /** fread(sought->text, 1, 480, in) */
    method ReadText(r: Record)
      requires Valid() && IsRecord(r)
      modifies text
      ensures text[..] == r.text
    {
      forall k | 0 <= k < TEXT {
        text[k] := r.text[k];
      }
    }

    /** strcpy(sought->text, found->text) */
    method CopyText(r: Record)
      requires Valid() && IsRecord(r)
      modifies text
      ensures CStr(text[..]) == CStr(r.text) && text[StrLen(r.text) + 1..] == old(text[StrLen(r.text) + 1..])
    {
      var n := StrLen(r.text);
      for k := 0 to n + 1
        invariant forall j :: 0 <= j < k ==> text[j] == r.text[j]
        invariant text[n + 1..] == old(text[n + 1..])
      {
        text[k] := r.text[k];
      }
      CStrOf(r.text[..n], text[n..]);
      assert text[..] == r.text[..n] + text[n..];
    }

    /** bsearch with dict_cmp. */
    method Search(table: seq<Record>) returns (i: nat)
      requires Valid() && Sorted(Keys(table))
      ensures IsSearchResult(Keys(table), Key(), i)
    {
      var l, u := 0, |table|;
      while l < u
        invariant 0 <= l <= u <= |table|
        invariant forall k :: 0 <= k < l ==> StrCmp(Key(), Keys(table)[k]) > 0
        invariant forall k :: u <= k < |table| ==> StrCmp(Key(), Keys(table)[k]) < 0
      {
        var middle := (l + u) / 2;
        var cmp := StrCmp(CStr(word[..]), CStr(table[middle].word));
        if cmp < 0 {
          forall k | middle <= k < |table| ensures StrCmp(Key(), Keys(table)[k]) < 0 {
            if k > middle {
              Below(Key(), Keys(table)[middle], Keys(table)[k]);
            }
          }
          u := middle;
        } else if cmp > 0 {
          forall k | 0 <= k <= middle ensures StrCmp(Key(), Keys(table)[k]) > 0 {
            if k < middle {
              Above(Key(), Keys(table)[middle], Keys(table)[k]);
            }
          }
          l := middle + 1;
        } else {
          StrCmpZero(Key(), Keys(table)[middle]);
          return middle;
        }
      }
      NotThere(Keys(table), Key(), l);
      i := |table|;
    }

    /** lookup5, once the table is mapped. */
    method LookupBinary(table: seq<Record>) returns (result: int)
      requires Valid() && IsTable(table) && Sorted(Keys(table))
      modifies text
      ensures Valid()
      ensures result == FOUND ==>
        exists i :: 0 <= i < |table| && Keys(table)[i] == Key() && CStr(text[..]) == CStr(table[i].text)
      ensures result != FOUND ==> result == NOTFOUND && Key() !in Keys(table) && text[..] == old(text[..])
      ensures StrictlySorted(Keys(table)) ==>
        var i := First(Keys(table), Key());
        && result == (if i < |table| then FOUND else NOTFOUND)
        && (i < |table| ==> CStr(text[..]) == CStr(table[i].text))
    {
      var i := Search(table);
      ghost var strict := StrictlySorted(Keys(table));
      if strict {
        SearchIsFirst(Keys(table), Key(), i);
      }
      if i < |table| {
        CopyText(table[i]);
        return FOUND;
      }
      return NOTFOUND;
    }
  }

  lemma NotThere(keys: seq<string>, key: string, l: nat)
    requires l <= |keys|
    requires forall k :: 0 <= k < l ==> StrCmp(key, keys[k]) > 0
    requires forall k :: l <= k < |keys| ==> StrCmp(key, keys[k]) < 0
    ensures key !in keys
  {
    StrCmpZero(key, key);
  }
}
