/** The tag string made from a VM's metadata (softlayer_virtual_guest_service_metadata.go,
    extractTagsFromVMMetadata), and its inverse. */
module Tags {
  import opened Common
  import opened Text

  // ----- sanitising a value

  /** The characters the first expression keeps: word characters, blank, hyphen, period and colon. */
  predicate Permitted(c: char) {
    || 'A' <= c <= 'Z' || 'a' <= c <= 'z' || '0' <= c <= '9' || c == '_'
    || c == ' ' || c == '-' || c == '.' || c == ':'
  }

  function Stripped(s: string): string {
    if s == [] then [] else if Permitted(s[0]) then [s[0]] + Stripped(s[1..]) else Stripped(s[1..])
  }

  /** Each run of colons becomes one hyphen; `inRun` says whether the character before was a colon. */
  function Hyphenated(s: string, inRun: bool): string {
    if s == [] then []
    else if s[0] == ':' then (if inRun then [] else ['-']) + Hyphenated(s[1..], true)
    else [s[0]] + Hyphenated(s[1..], false)
  }

  function Sanitised(s: string): string {
    Hyphenated(Stripped(s), false)
  }

  lemma {:induction false} StrippedIsPermitted(s: string)
    ensures forall i :: 0 <= i < |Stripped(s)| ==> Permitted(Stripped(s)[i])
  {
    if s != [] {
      StrippedIsPermitted(s[1..]);
    }
  }

  lemma {:induction false} HyphenatedHasNoColon(s: string, inRun: bool)
    requires forall i :: 0 <= i < |s| ==> Permitted(s[i])
    ensures forall i :: 0 <= i < |Hyphenated(s, inRun)| ==>
              Permitted(Hyphenated(s, inRun)[i]) && Hyphenated(s, inRun)[i] != ':'
  {
    if s != [] {
      HyphenatedHasNoColon(s[1..], s[0] == ':');
    }
  }

  lemma {:induction false} StrippedKeepsPermitted(s: string)
    requires forall i :: 0 <= i < |s| ==> Permitted(s[i])
    ensures Stripped(s) == s
  {
    if s != [] {
      StrippedKeepsPermitted(s[1..]);
    }
  }

  lemma {:induction false} HyphenatedKeepsColonFree(s: string, inRun: bool)
    requires ':' !in s
    ensures Hyphenated(s, inRun) == s
  {
    if s != [] {
      HyphenatedKeepsColonFree(s[1..], false);
    }
  }

  /** A sanitised value holds only permitted characters, no colon and no comma, and sanitising it
      again changes nothing; indeed the values it does not change are exactly those. */
  lemma SanitisedValues(s: string)
    ensures forall i :: 0 <= i < |Sanitised(s)| ==> Permitted(Sanitised(s)[i]) && Sanitised(s)[i] != ':'
    ensures ':' !in Sanitised(s) && ',' !in Sanitised(s)
    ensures Sanitised(Sanitised(s)) == Sanitised(s)
    ensures Sanitised(s) == s <==> (forall i :: 0 <= i < |s| ==> Permitted(s[i]) && s[i] != ':')
  {
    StrippedIsPermitted(s);
    HyphenatedHasNoColon(Stripped(s), false);
    var t := Sanitised(s);
    StrippedKeepsPermitted(t);
    HyphenatedKeepsColonFree(t, false);
    if forall i :: 0 <= i < |s| ==> Permitted(s[i]) && s[i] != ':' {
      StrippedKeepsPermitted(s);
      HyphenatedKeepsColonFree(s, false);
    }
  }

  /** Stripping looks at each character by itself. */
  lemma {:induction false} StrippedConcat(a: string, b: string)
    ensures Stripped(a + b) == Stripped(a) + Stripped(b)
  {
    if a == [] {
      assert a + b == b;
    } else {
      assert (a + b)[1..] == a[1..] + b;
      StrippedConcat(a[1..], b);
    }
  }

  /** What sanitising makes of a single character, by its code; with `StrippedConcat` and `ColonRun` that
      is what it makes of any value. */
  lemma SanitisedCharacter(c: char)
    ensures var code := c as int;
            var kept := 65 <= code <= 90 || 97 <= code <= 122 || 48 <= code <= 57 || code in {95, 32, 45, 46};
            Sanitised([c]) == if c == ':' then ['-'] else if kept then [c] else []
  {
    assert [c][1..] == [] && [c] + [] == [c] && ['-'] + [] == ['-'];
    assert Stripped([c]) == if Permitted(c) then [c] else [];
    assert Hyphenated([c], false) == if c == ':' then ['-'] else [c];
  }

  function Colons(n: nat): string {
    if n == 0 then "" else ":" + Colons(n - 1)
  }

  lemma {:induction false} HyphenatedRun(n: nat, b: string, inRun: bool)
    requires n >= 1 && ':' !in b
    ensures Hyphenated(Colons(n) + b, inRun) == (if inRun then [] else ['-']) + b
  {
    assert (Colons(n) + b)[1..] == Colons(n - 1) + b;
    if n == 1 {
      assert Colons(0) + b == b;
      HyphenatedKeepsColonFree(b, true);
    } else {
      HyphenatedRun(n - 1, b, true);
    }
  }

  lemma {:induction false} HyphenatedPrefix(a: string, s: string)
    requires ':' !in a
    ensures Hyphenated(a + s, false) == a + Hyphenated(s, false)
  {
    if a == [] {
      assert a + s == s;
    } else {
      assert (a + s)[1..] == a[1..] + s;
      HyphenatedPrefix(a[1..], s);
    }
  }

  lemma {:induction false} ColonsArePermitted(n: nat)
    ensures Stripped(Colons(n)) == Colons(n)
  {
    if n > 0 {
      ColonsArePermitted(n - 1);
    }
  }

  lemma CleanText(a: string)
    requires Sanitised(a) == a
    ensures Stripped(a) == a && ':' !in a
  {
    SanitisedValues(a);
    StrippedKeepsPermitted(a);
  }

  lemma StrippedColonRun(a: string, n: nat, b: string)
    requires Stripped(a) == a && Stripped(b) == b
    ensures Stripped(a + Colons(n) + b) == a + (Colons(n) + b)
  {
    var colons := Colons(n);
    ColonsArePermitted(n);
    assert a + colons + b == a + (colons + b);
    calc {
      Stripped(a + colons + b);
      Stripped(a + (colons + b));
      { StrippedConcat(a, colons + b); }
      Stripped(a) + Stripped(colons + b);
      { StrippedConcat(colons, b); }
      a + (colons + b);
    }
  }

  /** A run of colons between two clean texts becomes one hyphen, however long it is. */
  lemma ColonRun(a: string, n: nat, b: string)
    requires Sanitised(a) == a && Sanitised(b) == b && n >= 1
    ensures Sanitised(a + Colons(n) + b) == a + (['-'] + b)
  {
    CleanText(a);
    CleanText(b);
    StrippedColonRun(a, n, b);
    HyphenatedPrefix(a, Colons(n) + b);
    HyphenatedRun(n, b, false);
  }

  // ----- printing

  const NAME: string := "name"

  function Entry(m: map<string, string>, name: string): string
    requires name in m
  {
    name + ":" + Sanitised(m[name])
  }

  /** The entries of the names in this order, each ended by a comma. */
  function Entries(m: map<string, string>, order: seq<string>): string
    requires forall n :: n in order ==> n in m
  {
    if order == [] then "" else Entry(m, order[0]) + "," + Entries(m, order[1..])
  }

  lemma {:induction false} EntriesSnoc(m: map<string, string>, order: seq<string>, name: string)
    requires name in m && forall n :: n in order ==> n in m
    ensures Entries(m, order + [name]) == Entries(m, order) + Entry(m, name) + ","
  {
    if order == [] {
      assert [name][1..] == [];
      assert [] + [name] == [name];
    } else {
      assert (order + [name])[1..] == order[1..] + [name];
      EntriesSnoc(m, order[1..], name);
      assert Entry(m, order[0]) + "," + (Entries(m, order[1..]) + Entry(m, name) + ",")
          == (Entry(m, order[0]) + "," + Entries(m, order[1..])) + Entry(m, name) + ",";
    }
  }

  /** Some order of the tag names, all names but "name". */
  ghost predicate TagOrder(m: map<string, string>, order: seq<string>) {
    && (forall n :: n in order <==> n in m && n != NAME)
    && (forall i, j :: 0 <= i < j < |order| ==> order[i] != order[j])
  }

  function DropLast(s: string): string
    requires s != []
  {
    s[..|s| - 1]
  }

  /** Metadata is a map to values of any type. */
  datatype Value = Text(text: string) | NoText

  function Texts(metadata: map<string, Value>): map<string, string> {
    map n | n in metadata && metadata[n].Text? :: metadata[n].text
  }

  predicate IsTag(metadata: map<string, Value>, n: string) {
    n in metadata && n != "name"
  }

  /** extractTagsFromVMMetadata; None where it panics: at a value that is no text, or on truncating the
      empty buffer. */
  method ExtractTags(metadata: map<string, Value>) returns (r: Option<string>)
    ensures r.None? <==> (exists n :: IsTag(metadata, n) && metadata[n].NoText?) || forall n :: !IsTag(metadata, n)
    ensures r.Some? ==> exists order :: TagOrder(Texts(metadata), order) && order != []
                                        && Entries(Texts(metadata), order) != []
                                        && r.value == DropLast(Entries(Texts(metadata), order))
  {
    ghost var m := Texts(metadata);
    var buffer := "";
    var todo := metadata.Keys;
    ghost var order: seq<string> := [];
    while todo != {}
      invariant todo <= metadata.Keys
      invariant forall n :: IsTag(metadata, n) && n !in todo ==> metadata[n].Text?
      invariant forall n :: n in order <==> IsTag(metadata, n) && n !in todo
      invariant forall i, j :: 0 <= i < j < |order| ==> order[i] != order[j]
      invariant buffer == Entries(m, order)
    {
      var tagName :| tagName in todo;
      todo := todo - {tagName};
      if tagName == NAME {
        continue;
      }
      if metadata[tagName].NoText? {
        assert IsTag(metadata, tagName);
        return None;
      }
      EntriesSnoc(m, order, tagName);
      buffer := buffer + tagName + ":" + Sanitised(metadata[tagName].text) + ",";
      assert buffer == Entries(m, order) + Entry(m, tagName) + ",";
      order := order + [tagName];
    }
    if |buffer| == 0 {
      assert forall n :: IsTag(metadata, n) ==> n in order;
      return None;
    }
    assert TagOrder(m, order);
    assert order != [] && order[0] in order;
    return Some(buffer[..|buffer| - 1]);
  }

  lemma {:induction false} AtMostOnce(order: seq<string>, name: string)
    requires forall n :: n in order ==> n == name
    requires forall i, j :: 0 <= i < j < |order| ==> order[i] != order[j]
    ensures |order| <= 1 && (order != [] ==> order[0] == name)
  {
    if order != [] {
      assert order[|order| - 1] in order && order[0] in order;
    }
  }

  /** One tag is printed as its name, a colon and its sanitised value; "name" is left out. */
  lemma OneTag(name: string, value: string, hidden: string, order: seq<string>)
    requires name != "name" && TagOrder(map[name := value, "name" := hidden], order)
    ensures Entries(map[name := value, "name" := hidden], order) == name + ":" + Sanitised(value) + ","
  {
    var m := map[name := value, "name" := hidden];
    AtMostOnce(order, name);
    assert name in order;
    assert order == [name];
    assert Entries(m, order) == Entry(m, name) + "," + Entries(m, order[1..]);
  }

  // ----- the inverse

  /** The pieces between commas. */
  function Split(s: string): (pieces: seq<string>)
    ensures pieces != []
    decreases |s|
  {
    var i := IndexOf(s, ',');
    if i == |s| then [s] else [s[..i]] + Split(s[i + 1..])
  }

  /** Each piece read as a name, up to its first colon, and a value. */
  function ReadPieces(pieces: seq<string>): map<string, string> {
    if pieces == [] then map[]
    else
      var i := IndexOf(pieces[0], ':');
      var value := if i < |pieces[0]| then pieces[0][i + 1..] else "";
      ReadPieces(pieces[1..])[pieces[0][..i] := value]
  }

  function Read(s: string): map<string, string> {
    ReadPieces(Split(s))
  }

  function TagMap(m: map<string, string>): map<string, string> {
    map n | n in m && n != NAME :: Sanitised(m[n])
  }

  ghost predicate PlainNames(m: map<string, string>) {
    forall n :: n in m ==> ',' !in n && ':' !in n
  }

  function Pieces(m: map<string, string>, order: seq<string>): seq<string>
    requires forall n :: n in order ==> n in m
  {
    seq(|order|, i requires 0 <= i < |order| => Entry(m, order[i]))
  }

  lemma EntryHasNoComma(m: map<string, string>, name: string)
    requires name in m && ',' !in name
    ensures ',' !in Entry(m, name)
  {
    SanitisedValues(m[name]);
  }

  lemma SplitOne(e: string)
    requires ',' !in e
    ensures Split(e) == [e]
  {
    IndexOfNone(e, ',');
  }

  lemma SplitFirst(e: string, tail: string)
    requires ',' !in e
    ensures Split(e + [','] + tail) == [e] + Split(tail)
  {
    var s := e + [','] + tail;
    IndexOfSeparator(e, ',', tail);
    assert s[..|e|] == e && s[|e| + 1..] == tail;
  }

  lemma DropLastOfTail(e: string, rest: string)
    requires rest != []
    ensures DropLast(e + "," + rest) == e + [','] + DropLast(rest)
  {
  }

  lemma {:induction false} SplitEntries(m: map<string, string>, order: seq<string>)
    requires order != [] && (forall n :: n in order ==> n in m && ',' !in n)
    ensures Entries(m, order) != [] && Split(DropLast(Entries(m, order))) == Pieces(m, order)
  {
    var e, rest := Entry(m, order[0]), order[1..];
    EntryHasNoComma(m, order[0]);
    assert Entries(m, order) == e + "," + Entries(m, rest);
    assert Pieces(m, order) == [e] + Pieces(m, rest);
    if rest == [] {
      assert DropLast(e + "," + "") == e;
      SplitOne(e);
    } else {
      SplitEntries(m, rest);
      DropLastOfTail(e, Entries(m, rest));
      SplitFirst(e, DropLast(Entries(m, rest)));
    }
  }

  lemma {:induction false} ReadPiecesOfEntries(m: map<string, string>, order: seq<string>)
    requires forall n :: n in order ==> n in m && ':' !in n
    ensures forall n :: n in ReadPieces(Pieces(m, order)) <==> n in order
    ensures forall n :: n in order ==> ReadPieces(Pieces(m, order))[n] == Sanitised(m[n])
  {
    if order != [] {
      var n := order[0];
      ReadPiecesOfEntries(m, order[1..]);
      assert Pieces(m, order)[1..] == Pieces(m, order[1..]);
      var e := Entry(m, n);
      assert Pieces(m, order)[0] == e == n + [':'] + Sanitised(m[n]);
      IndexOfSeparator(n, ':', Sanitised(m[n]));
      assert e[..|n|] == n && e[|n| + 1..] == Sanitised(m[n]);
      assert ReadPieces(Pieces(m, order)) == ReadPieces(Pieces(m, order[1..]))[n := Sanitised(m[n])];
    }
  }

  lemma {:induction false} PiecesHaveNoComma(s: string)
    ensures forall i :: 0 <= i < |Split(s)| ==> ',' !in Split(s)[i]
    decreases |s|
  {
    var i := IndexOf(s, ',');
    if i < |s| {
      PiecesHaveNoComma(s[i + 1..]);
    }
  }

  lemma {:induction false} NamesReadArePlain(pieces: seq<string>)
    requires forall i :: 0 <= i < |pieces| ==> ',' !in pieces[i]
    ensures forall n :: n in ReadPieces(pieces) ==> ',' !in n && ':' !in n
  {
    if pieces != [] {
      NamesReadArePlain(pieces[1..]);
      assert ',' !in pieces[0];
    }
  }

  /** Reading what was printed, in whatever order the map was visited, gives back the sanitised
      tags exactly if no tag name holds a comma or a colon. */
  lemma TagRoundTrip(m: map<string, string>, order: seq<string>)
    requires TagOrder(m, order) && order != []
    ensures Entries(m, order) != []
    ensures Read(DropLast(Entries(m, order))) == TagMap(m) <==> PlainNames(m)
  {
    assert Entries(m, order) == Entry(m, order[0]) + "," + Entries(m, order[1..]);
    if PlainNames(m) {
      SplitEntries(m, order);
      ReadPiecesOfEntries(m, order);
    } else {
      PiecesHaveNoComma(DropLast(Entries(m, order)));
      NamesReadArePlain(Split(DropLast(Entries(m, order))));
    }
  }

  /** The same from the metadata on, if all its values but that of "name" are texts. */
  lemma MetadataRoundTrip(metadata: map<string, Value>, order: seq<string>)
    requires TagOrder(Texts(metadata), order) && order != []
    requires forall n :: n in metadata && n != "name" ==> metadata[n].Text?
    requires forall n :: n in metadata ==> ',' !in n && ':' !in n
    ensures Entries(Texts(metadata), order) != []
    ensures Read(DropLast(Entries(Texts(metadata), order)))
         == map n | n in metadata && n != "name" :: Sanitised(metadata[n].text)
  {
    TagRoundTrip(Texts(metadata), order);
  }

  /** So metadata with the same sanitised tags, and no other, can be printed as the same string. */
  lemma PrintedTagsDetermineMap(m: map<string, string>, order: seq<string>,
                                m': map<string, string>, order': seq<string>)
    requires PlainNames(m) && TagOrder(m, order) && order != []
    requires PlainNames(m') && TagOrder(m', order') && order' != []
    requires Entries(m, order) == Entries(m', order')
    ensures TagMap(m) == TagMap(m')
  {
    TagRoundTrip(m, order);
    TagRoundTrip(m', order');
  }
}
