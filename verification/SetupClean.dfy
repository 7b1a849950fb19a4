/** What a cleaned scan holds, told from the reports: names, addresses and their order. */
module SetupClean {
  import opened Bytes
  import opened Sorting
  import opened YamlText
  import opened SetupScan

  // --- addresses ---

  const SMALL := "abcdefghijklmnopqrstuvwxyz"
  const CAPITAL := "ABCDEFGHIJKLMNOPQRSTUVWXYZ"
  const OTHERS := "0123456789.:-_"

  predicate Permitted(c: char)
  {
    c in SMALL || c in CAPITAL || c in OTHERS
  }

  lemma SmallIs(c: char)
    ensures c in SMALL <==> 'a' <= c <= 'z'
  {
    if 'a' <= c <= 'z' {
      assert SMALL[c as int - 'a' as int] == c;
    }
  }

  lemma CapitalIs(c: char)
    ensures c in CAPITAL <==> 'A' <= c <= 'Z'
  {
    if 'A' <= c <= 'Z' {
      assert CAPITAL[c as int - 'A' as int] == c;
    }
  }

  lemma IdCharIs(c: char)
    ensures IdChar(c) <==> Permitted(c)
  {
    SmallIs(c);
    CapitalIs(c);
    hide SMALL, CAPITAL;
  }

  /** A text stands for an address exactly when it is that address, of at most 64 permitted characters, with nothing but
      space around it. */
  lemma PairIdIff(text: string, id: string)
    requires id != ""
    ensures SanitizePairId(text) == id
            <==> |id| <= 64 && (forall i :: 0 <= i < |id| ==> Permitted(id[i]))
                 && exists a, b :: Surrounds(a, id, b, text, SPACES)
  {
    TrimIff(text, id);
    hide SPACES, TrimSpace, Permitted;
    forall i | 0 <= i < |id|
      ensures IdChar(id[i]) <==> Permitted(id[i])
    {
      IdCharIs(id[i]);
    }
  }

  // --- names ---

  predicate IsControl(c: char)
  {
    c < ' ' || c == '\U{7f}'
  }

  /** A text without its control characters. */
  function Visible(s: string): string
  {
    if s == "" then "" else Visible(s[..|s| - 1]) + if IsControl(s[|s| - 1]) then "" else [s[|s| - 1]]
  }

  lemma {:induction false} VisibleFirst(s: string)
    requires s != ""
    ensures Visible(s) == (if IsControl(s[0]) then "" else [s[0]]) + Visible(s[1..])
    decreases |s|
  {
    if |s| > 1 {
      var front := s[..|s| - 1];
      VisibleFirst(front);
      assert s[1..][..|s| - 2] == front[1..];
    }
  }

  lemma BytesSnoc(s: string, c: char)
    ensures Utf8Bytes(s + [c]) == Utf8Bytes(s) + Utf8Length(c)
  {
    assert (s + [c])[..|s|] == s;
  }

  lemma NothingVisible()
    ensures Visible("") == ""
  {
  }

  lemma ControlIs(c: char)
    ensures IsControl(c) <==> c < ' ' || c == '\U{7f}'
  {
  }

  lemma {:induction false} CleanIsPrefix(s: string, out: string, max: nat)
    ensures var r, whole := CleanFrom(s, out, max), out + Visible(s);
            && r <= whole && (Utf8Bytes(out) <= max ==> Utf8Bytes(r) <= max)
            && (r != whole ==> Utf8Bytes(whole[..|r| + 1]) > max)
    decreases |s|
  {
    hide Utf8Length, Utf8Bytes, Visible, IsControl;
    if s == "" {
      NothingVisible();
      assert out + "" == out;
    } else {
      VisibleFirst(s);
      BytesSnoc(out, s[0]);
      ControlIs(s[0]);
      if IsControl(s[0]) {
        assert out + Visible(s) == out + Visible(s[1..]);
        CleanIsPrefix(s[1..], out, max);
      } else {
        assert out + Visible(s) == out + [s[0]] + Visible(s[1..]);
        assert (out + Visible(s))[..|out| + 1] == out + [s[0]];
        if Utf8Bytes(out) + Utf8Length(s[0]) <= max {
          CleanIsPrefix(s[1..], out + [s[0]], max);
        }
      }
    }
  }

  /** A cleaned name is the longest beginning of the visible text that fits its bytes. */
  lemma NameMeaning(text: string, max: nat)
    ensures var r, whole := CleanFrom(TrimSpace(text), "", max), Visible(TrimSpace(text));
            && r <= whole && Utf8Bytes(r) <= max
            && (r != whole ==> Utf8Bytes(whole[..|r| + 1]) > max)
  {
    hide TrimSpace, Visible;
    CleanIsPrefix(TrimSpace(text), "", max);
    assert "" + Visible(TrimSpace(text)) == Visible(TrimSpace(text));
  }

  /** How many bytes a character takes in UTF-8. */
  lemma BytesOfCharacters()
    ensures Utf8Length('a') == 1 && Utf8Length('\U{e9}') == 2
    ensures Utf8Length('\U{20ac}') == 3 && Utf8Length('\U{1f600}') == 4
    ensures Utf8Length('\U{7f}') == 1 && Utf8Length('\U{80}') == 2 && Utf8Length('\U{7ff}') == 2
    ensures Utf8Length('\U{800}') == 3 && Utf8Length('\U{ffff}') == 3 && Utf8Length('\U{10000}') == 4
  {
  }

  /** Each entry is a report with its address and hardware id trimmed, or left out when they are none, a name of at most
      forty bytes, and everything else as it was heard. */
  lemma EntriesAreReports(found: seq<Device>, i: nat)
    requires i < |CleanFound(found)|
    ensures var o := CleanFound(found)[i];
            exists d :: d in found
              && o.addr == SanitizePairId(d.addr) && o.mac == SanitizePairId(d.mac)
              && o.name == CleanFrom(TrimSpace(d.name), "", 40)
              && o.rssi == d.rssi && o.provisioned == d.provisioned
              && o.version == d.version && o.capacity == d.capacity
  {
    CleanFoundIsClean(found);
    hide CleanFound, CleanList, SanitizePairId, CleanFrom, TrimSpace;
    var o := CleanFound(found)[i];
    assert o in CleanFound(found);
  }

  /** The order of the list: devices to set up first, then the strongest, then by address. */
  lemma ScanOrder(found: seq<Device>, i: nat, j: nat)
    requires i < j < |CleanFound(found)|
    ensures var a, b := CleanFound(found)[i], CleanFound(found)[j];
            && (a.provisioned ==> b.provisioned)
            && (a.provisioned == b.provisioned ==> a.rssi >= b.rssi)
            && (a.provisioned == b.provisioned && a.rssi == b.rssi ==> Alphabetical(a.addr, b.addr))
  {
    CleanFoundIsClean(found);
    hide CleanFound, SanitizePairId, Cleaned, StringLess, Alphabetical;
    var a, b := CleanFound(found)[i], CleanFound(found)[j];
    assert !DeviceLess(b, a);
    assert a.addr != b.addr;
    StringTotal(a.addr, b.addr);
    if StringLess(a.addr, b.addr) {
      LessIsAlphabetical(a.addr, b.addr);
    }
  }

  lemma CandidatesFirst(found: seq<Device>)
    requires found != []
    ensures Candidates(found) == (if found[0].provisioned then [] else [found[0]]) + Candidates(found[1..])
  {
  }

  lemma Regroup(a: seq<Device>, b: seq<Device>, c: seq<Device>)
    ensures a + b + c == a + (b + c)
  {
  }

  /** The candidates are taken from the list in its order. */
  lemma {:induction false} CandidatesAppend(a: seq<Device>, b: seq<Device>)
    ensures Candidates(a + b) == Candidates(a) + Candidates(b)
  {
    if a == [] {
      assert a + b == b;
    } else {
      var rest := a[1..];
      CandidatesAppend(rest, b);
      assert (a + b)[1..] == rest + b;
      CandidatesFirst(a);
      CandidatesFirst(a + b);
      hide Candidates;
      Regroup(if a[0].provisioned then [] else [a[0]], Candidates(rest), Candidates(b));
    }
  }

  /** They are the devices not set up. */
  lemma {:induction false} CandidatesAre(found: seq<Device>)
    ensures forall d :: d in Candidates(found) <==> d in found && !d.provisioned
  {
    if found != [] {
      CandidatesAre(found[1..]);
      assert found == [found[0]] + found[1..];
    }
  }
}
