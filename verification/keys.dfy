/**
 Destination-key derivation: the handler names the converted object by applying
 Python's `str.replace(".csv", ".json")` to the source key. That replaces EVERY
 non-overlapping `.csv`, not only the suffix, so `a.csv.b.csv` becomes `a.json.b.json`.
 The lemmas pin down what that means for keys: the suffix becomes `.json`, a key whose
 only `.csv` is its suffix changes only there, no `.csv` survives, and the rename is
 undone by the reverse replacement when the key held no `.json` to begin with.
 */
module Keys {
  import opened Strings

  const CsvSuffix: string := ".csv"
  const JsonSuffix: string := ".json"

  /** The destination key for source key `csvKey`. */
  function JsonKey(csvKey: string): string {
    Replace(csvKey, CsvSuffix, JsonSuffix)
  }

  /** One step of the scan: a key not starting with `.csv` keeps its first character. */
  lemma JsonKeyUnfold(s: string)
    requires |s| > 0 && !StartsWith(s, CsvSuffix)
    ensures JsonKey(s) == [s[0]] + JsonKey(s[1..])
  {
  }

  /** Both `.csv` and `.json` start with a dot, so the first character never changes. */
  lemma JsonKeyKeepsHead(s: string)
    requires |s| > 0
    ensures |JsonKey(s)| > 0 && JsonKey(s)[0] == s[0]
  {
  }

  /**
   A dot-free prefix of the renamed key is already a prefix of the source key:
   every inserted `.json` starts with a dot, so none can contribute to it.
   */
  lemma {:induction false} DotFreePrefix(s: string, w: string)
    requires forall k :: 0 <= k < |w| ==> w[k] != '.'
    requires StartsWith(JsonKey(s), w)
    ensures StartsWith(s, w)
    decreases |w|
  {
    if |w| > 0 {
      if |s| > 0 {
        JsonKeyKeepsHead(s);
        assert JsonKey(s)[0] == w[0];
        assert !StartsWith(s, CsvSuffix);
        JsonKeyUnfold(s);
        assert JsonKey(s[1..]) == JsonKey(s)[1..];
        assert StartsWith(JsonKey(s[1..]), w[1..]);
        DotFreePrefix(s[1..], w[1..]);
        assert s[..|w|] == [s[0]] + s[1..][..|w| - 1];
      }
    }
  }

  /** Renaming `p + ".csv"` renames `p` and turns the final `.csv` into `.json`. */
  lemma {:induction false} JsonKeyOfSuffixed(p: string)
    ensures JsonKey(p + CsvSuffix) == JsonKey(p) + JsonSuffix
    decreases |p|
  {
    var s := p + CsvSuffix;
    if |p| == 0 {
      assert s == CsvSuffix;
      assert s[|CsvSuffix|..] == [];
    } else if StartsWith(p, CsvSuffix) {
      assert StartsWith(s, CsvSuffix);
      assert s[|CsvSuffix|..] == p[|CsvSuffix|..] + CsvSuffix;
      JsonKeyOfSuffixed(p[|CsvSuffix|..]);
    } else {
      // A `.csv` starting inside `p` but running into the suffix would need a second
      // dot inside `.csv`; so the scan cannot match at position 0 here.
      assert !StartsWith(s, CsvSuffix) by {
        if |p| >= |CsvSuffix| {
          assert s[..|CsvSuffix|] == p[..|CsvSuffix|];
        } else {
          assert s[|p|] == '.' && CsvSuffix[|p|] != '.';
        }
      }
      JsonKeyUnfold(s);
      assert s[1..] == p[1..] + CsvSuffix;
      JsonKeyOfSuffixed(p[1..]);
      JsonKeyUnfold(p);
    }
  }

  /** A key ending in `.csv` is renamed to a key ending in `.json`. */
  lemma CsvSuffixBecomesJson(s: string)
    requires EndsWith(s, CsvSuffix)
    ensures EndsWith(JsonKey(s), JsonSuffix)
  {
    var p := s[..|s| - |CsvSuffix|];
    assert s == p + CsvSuffix;
    JsonKeyOfSuffixed(p);
  }

  /**
   Swapping only the final `.csv` for `.json` agrees with the rename exactly when
   `.csv` occurs nowhere else in the key.
   */
  lemma OnlySuffixChanges(p: string)
    ensures JsonKey(p + CsvSuffix) == p + JsonSuffix <==> !Occurs(p, CsvSuffix)
  {
    JsonKeyOfSuffixed(p);
    UnchangedIffNoCsv(p);
    if JsonKey(p) + JsonSuffix == p + JsonSuffix {
      assert JsonKey(p) == (JsonKey(p) + JsonSuffix)[..|JsonKey(p)|];
      assert |JsonKey(p)| == |p|;
      assert p == (p + JsonSuffix)[..|p|];
    }
  }

  /** The rename leaves a key unchanged exactly when the key holds no `.csv`. */
  lemma UnchangedIffNoCsv(s: string)
    ensures JsonKey(s) == s <==> !Occurs(s, CsvSuffix)
  {
    if Occurs(s, CsvSuffix) {
      ReplaceGrows(s, CsvSuffix, JsonSuffix);
    } else {
      ReplaceAbsent(s, CsvSuffix, JsonSuffix);
    }
  }

  /** Every `.csv` is replaced: none is left in the destination key. */
  lemma {:induction false} NoCsvRemains(s: string)
    ensures !Occurs(JsonKey(s), CsvSuffix)
    decreases |s|
  {
    if |s| == 0 {
      assert JsonKey(s) == [];
    } else if StartsWith(s, CsvSuffix) {
      var t := JsonKey(s[|CsvSuffix|..]);
      NoCsvRemains(s[|CsvSuffix|..]);
      assert JsonKey(s) == JsonSuffix + t;
      forall i | 0 <= i < |JsonSuffix|
        ensures !StartsWith((JsonSuffix + t)[i..], CsvSuffix)
      {
        var u := (JsonSuffix + t)[i..];
        assert u[0] == JsonSuffix[i];
        assert i == 0 ==> u[1] == 'j';
      }
      if Occurs(JsonSuffix + t, CsvSuffix) {
        OccursSplit(JsonSuffix, t, CsvSuffix);
        assert false;
      }
    } else {
      var t := JsonKey(s[1..]);
      NoCsvRemains(s[1..]);
      JsonKeyUnfold(s);
      assert JsonKey(s) == [s[0]] + t;
      OccursCons(s[0], t, CsvSuffix);
      ConsStartsWith(s[0], t, CsvSuffix);
      assert CsvSuffix[1..] == "csv";
      if StartsWith(t, "csv") {
        DotFreePrefix(s[1..], "csv");
        ConsStartsWith(s[0], s[1..], CsvSuffix);
        assert s == [s[0]] + s[1..];
      }
    }
  }

  /** Renaming a destination key again changes nothing. */
  lemma JsonKeyIdempotent(s: string)
    ensures JsonKey(JsonKey(s)) == JsonKey(s)
  {
    NoCsvRemains(s);
    UnchangedIffNoCsv(JsonKey(s));
  }

  /**
   The rename is undone by `replace(".json", ".csv")` provided the source key held no
   `.json`: every `.json` of the destination key is then one the rename inserted.
   */
  lemma {:induction false} RenameRoundTrip(s: string)
    requires !Occurs(s, JsonSuffix)
    ensures Replace(JsonKey(s), JsonSuffix, CsvSuffix) == s
    decreases |s|
  {
    if |s| == 0 {
      assert JsonKey(s) == [];
    } else if StartsWith(s, CsvSuffix) {
      var rest := s[|CsvSuffix|..];
      OccursInDrop(s, |CsvSuffix|, JsonSuffix);
      RenameRoundTrip(rest);
      var t := JsonKey(rest);
      assert JsonKey(s) == JsonSuffix + t;
      assert (JsonSuffix + t)[..|JsonSuffix|] == JsonSuffix;
      assert (JsonSuffix + t)[|JsonSuffix|..] == t;
      assert s == CsvSuffix + rest;
    } else {
      var rest := s[1..];
      OccursInDrop(s, 1, JsonSuffix);
      RenameRoundTrip(rest);
      var t := JsonKey(rest);
      JsonKeyUnfold(s);
      assert JsonKey(s) == [s[0]] + t;
      ConsStartsWith(s[0], t, JsonSuffix);
      assert JsonSuffix[1..] == "json";
      if StartsWith(t, "json") {
        DotFreePrefix(rest, "json");
        ConsStartsWith(s[0], rest, JsonSuffix);
        assert s == [s[0]] + rest;
        StartsWithOccurs(s, JsonSuffix);
      }
      assert ([s[0]] + t)[1..] == t;
      assert s == [s[0]] + rest;
    }
  }

  /** A leading `.csv` is renamed and the scan resumes right after it. */
  lemma JsonKeyOfPrefixed(rest: string)
    ensures JsonKey(CsvSuffix + rest) == JsonSuffix + JsonKey(rest)
  {
    assert (CsvSuffix + rest)[|CsvSuffix|..] == rest;
  }

  /** A leading character other than a dot is copied and the scan moves on. */
  lemma JsonKeyOfNonDot(c: char, rest: string)
    requires c != '.'
    ensures JsonKey([c] + rest) == [c] + JsonKey(rest)
  {
    var s := [c] + rest;
    assert !StartsWith(s, CsvSuffix) by {
      if |s| >= |CsvSuffix| {
        assert s[..|CsvSuffix|][0] == c;
      }
    }
    JsonKeyUnfold(s);
    assert s[1..] == rest;
  }

  /** `.csv` is replaced wherever it occurs, not only at the end. */
  lemma ReplacesEveryOccurrence()
    ensures JsonKey("a.csv.b.csv") == "a.json.b.json"
  {
    var b := ".b";
    assert JsonKey(b) == b;
    JsonKeyOfSuffixed(b);
    JsonKeyOfPrefixed(b + CsvSuffix);
    JsonKeyOfNonDot('a', CsvSuffix + b + CsvSuffix);
    assert "a.csv.b.csv" == ['a'] + (CsvSuffix + (b + CsvSuffix));
    assert "a.json.b.json" == ['a'] + (JsonSuffix + (b + JsonSuffix));
  }

  /** A stem without dots is copied unchanged and the scan resumes after it. */
  lemma {:induction false} JsonKeyOfDotFree(p: string, rest: string)
    requires forall k :: 0 <= k < |p| ==> p[k] != '.'
    ensures JsonKey(p + rest) == p + JsonKey(rest)
    decreases |p|
  {
    if |p| > 0 {
      JsonKeyOfDotFree(p[1..], rest);
      JsonKeyOfNonDot(p[0], p[1..] + rest);
      assert p + rest == [p[0]] + (p[1..] + rest);
      assert p + JsonKey(rest) == [p[0]] + (p[1..] + JsonKey(rest));
    } else {
      assert p + rest == rest;
    }
  }

  /**
   A key that passes the `.csv` filter is renamed in its folder part too: for dot-free
   `a` and `b`, `a + ".csv" + b + ".csv"` becomes `a + ".json" + b + ".json"`; the key
   `in.csv/x.csv` is the case `a = "in"`, `b = "/x"`.
   */
  lemma ReplacesFolderOccurrence(a: string, b: string)
    requires forall k :: 0 <= k < |a| ==> a[k] != '.'
    requires forall k :: 0 <= k < |b| ==> b[k] != '.'
    ensures EndsWith(a + CsvSuffix + b + CsvSuffix, CsvSuffix)
    ensures JsonKey(a + CsvSuffix + b + CsvSuffix) == a + JsonSuffix + b + JsonSuffix
  {
    JsonKeyOfDotFree(b, CsvSuffix);
    JsonKeyOfPrefixed([]);
    assert CsvSuffix + [] == CsvSuffix && JsonSuffix + [] == JsonSuffix;
    JsonKeyOfPrefixed(b + CsvSuffix);
    JsonKeyOfDotFree(a, CsvSuffix + (b + CsvSuffix));
    assert a + CsvSuffix + b + CsvSuffix == a + (CsvSuffix + (b + CsvSuffix));
    assert a + JsonSuffix + b + JsonSuffix == a + (JsonSuffix + (b + JsonSuffix));
    var s := a + CsvSuffix + b + CsvSuffix;
    assert s[|s| - |CsvSuffix|..] == CsvSuffix;
  }

  /**
   The rename is not one-to-one on keys the handler processes: for a dot-free stem `p`
   (say `x`), the different keys `p.json.csv` and `p.csv.csv` both end in `.csv` and are
   both stored as `p.json.json`.
   */
  lemma RenameCollides(p: string)
    requires forall k :: 0 <= k < |p| ==> p[k] != '.'
    ensures EndsWith(p + JsonSuffix + CsvSuffix, CsvSuffix) && EndsWith(p + CsvSuffix + CsvSuffix, CsvSuffix)
    ensures p + JsonSuffix + CsvSuffix != p + CsvSuffix + CsvSuffix
    ensures JsonKey(p + JsonSuffix + CsvSuffix) == p + JsonSuffix + JsonSuffix
    ensures JsonKey(p + CsvSuffix + CsvSuffix) == p + JsonSuffix + JsonSuffix
  {
    // `.json` itself is left alone: its dot does not start a `.csv`
    var json := "json";
    assert JsonSuffix == ['.'] + json;
    JsonKeyOfDotFree(json, []);
    assert json + [] == json;
    assert !StartsWith(JsonSuffix, CsvSuffix) by { assert JsonSuffix[1] != CsvSuffix[1]; }
    JsonKeyUnfold(JsonSuffix);
    assert JsonSuffix[1..] == json;
    JsonKeyOfSuffixed(JsonSuffix);
    JsonKeyOfDotFree(p, JsonSuffix + CsvSuffix);
    assert p + JsonSuffix + CsvSuffix == p + (JsonSuffix + CsvSuffix);
    // `.csv.csv` is renamed twice
    JsonKeyOfPrefixed([]);
    assert CsvSuffix + [] == CsvSuffix && JsonSuffix + [] == JsonSuffix;
    JsonKeyOfPrefixed(CsvSuffix);
    JsonKeyOfDotFree(p, CsvSuffix + CsvSuffix);
    assert p + CsvSuffix + CsvSuffix == p + (CsvSuffix + CsvSuffix);
    assert p + JsonSuffix + JsonSuffix == p + (JsonSuffix + JsonSuffix);
    var s1 := p + JsonSuffix + CsvSuffix;
    var s2 := p + CsvSuffix + CsvSuffix;
    assert s1[|s1| - |CsvSuffix|..] == CsvSuffix;
    assert s2[|s2| - |CsvSuffix|..] == CsvSuffix;
    assert |s1| != |s2|;
  }
}
