/** The avatar badge of the sidebar: the upper-cased first letters of the
    words of the client's name, or "U" when the profile has no name. */
module Initials {

  import opened ArrayOps
  import opened JsString
  import opened Records

  /** `n => n[0]` followed by `join('')`: an empty word's `[0]` is
      `undefined`, which `join` writes as nothing. */
  function FirstChars(words: seq<string>): string
  {
    if words == [] then ""
    else (if words[0] == "" then "" else [words[0][0]]) + FirstChars(words[1..])
  }

  /** The words of a name: the non-empty pieces between spaces. */
  function Words(name: string): (ws: seq<string>)
    ensures forall k :: 0 <= k < |ws| ==> ws[k] != [] && ' ' !in ws[k]
  {
    var parts := Split(name, ' ');
    var ws := Filter(parts, (w: string) => w != "");
    forall k | 0 <= k < |ws|
      ensures ws[k] != [] && ' ' !in ws[k]
    {
      assert ws[k] in parts;
      var j :| 0 <= j < |parts| && parts[j] == ws[k];
    }
    ws
  }

  /** `(clientData["Client Name"] || 'U').split(' ').map(n => n[0]).join('').toUpperCase()` */
  function Initials(clientData: Fields): (r: string)
    ensures TextField(clientData, "Client Name") == "" ==> r == "U"
    ensures forall k :: 0 <= k < |r| ==> !IsLower(r[k])
  {
    var name := TextField(clientData, "Client Name");
    SplitJoin(["U"], ' ');
    assert FirstChars(["U"]) == "U" + FirstChars([]);
    ToUpperCase(FirstChars(Split(if name == "" then "U" else name, ' ')))
  }

  /** Joining the first characters skips the empty pieces: the result is the
      first character of each non-empty piece, in order. */
  lemma {:induction false} FirstCharsOfWords(parts: seq<string>)
    ensures var ws := Filter(parts, (w: string) => w != "");
            |FirstChars(parts)| == |ws|
            && forall k :: 0 <= k < |ws| ==> ws[k] != "" && FirstChars(parts)[k] == ws[k][0]
  {
    if parts != [] {
      FirstCharsOfWords(parts[1..]);
      var ws, rest := Filter(parts, (w: string) => w != ""), Filter(parts[1..], (w: string) => w != "");
      var fs, frest := FirstChars(parts), FirstChars(parts[1..]);
      if parts[0] == "" {
        assert ws == rest && fs == frest;
      } else {
        assert ws == [parts[0]] + rest;
        assert fs == [parts[0][0]] + frest;
        forall k | 0 <= k < |ws|
          ensures ws[k] != "" && fs[k] == ws[k][0]
        {
          if k > 0 {
            assert ws[k] == rest[k - 1] && fs[k] == frest[k - 1];
          }
        }
      }
    }
  }

  /** The badge has one letter per word of the client's name: the first
      character of that word, upper-cased. */
  lemma InitialsAreFirstLetters(clientData: Fields)
    requires TextField(clientData, "Client Name") != ""
    ensures var ws := Words(TextField(clientData, "Client Name"));
            var r := Initials(clientData);
            |r| == |ws| && forall k :: 0 <= k < |ws| ==> r[k] == UpperChar(ws[k][0])
  {
    FirstCharsOfWords(Split(TextField(clientData, "Client Name"), ' '));
  }

  /** A one-word name yields the upper-cased first letter alone. */
  lemma OneWordName(clientData: Fields)
    requires TextField(clientData, "Client Name") != ""
    requires ' ' !in TextField(clientData, "Client Name")
    ensures Initials(clientData) == [UpperChar(TextField(clientData, "Client Name")[0])]
  {
    var name := TextField(clientData, "Client Name");
    SplitJoin([name], ' ');
    assert Split(name, ' ') == [name];
    assert FirstChars([name]) == [name[0]] + FirstChars([]);
  }

  /** "jane doe" gives "JD". */
  lemma SampleInitials()
    ensures Initials(map["Client Name" := Text("jane doe")]) == "JD"
  {
    SplitJoin(["jane", "doe"], ' ');
    assert Join(["jane", "doe"], ' ') == "jane doe";
    assert FirstChars(["jane", "doe"]) == "jd" by {
      assert FirstChars(["doe"]) == "d" + FirstChars([]);
    }
    assert ToUpperCase("jd") == "JD";
  }

  /** "Jane  Doe" also gives "JD": the double space makes an empty word,
      which contributes nothing. */
  lemma SampleInitialsDoubleSpace()
    ensures Initials(map["Client Name" := Text("Jane  Doe")]) == "JD"
  {
    SplitJoin(["Jane", "", "Doe"], ' ');
    assert Join(["Jane", "", "Doe"], ' ') == "Jane  Doe";
    assert FirstChars(["Jane", "", "Doe"]) == "JD" by {
      assert FirstChars(["Doe"]) == "D" + FirstChars([]);
      assert FirstChars(["", "Doe"]) == "" + FirstChars(["Doe"]);
    }
    assert ToUpperCase("JD") == "JD";
  }
}
