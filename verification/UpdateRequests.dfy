// What the updater accepts: the request checks, the used-ID window and the artifact comparison.
module UpdateRequests {
  import opened Common
  import opened Text
  import opened UpdateHost

  const ALLOWED_IMAGE := "ghcr.io/itashi37/roborock-mqtt-loxone"

  datatype Request = Request(requestId: string, tag: string, expectedVersion: string, expectedCommit: string)

  datatype Refusal =
    | InvalidRequestId | TagNotAllowed | VersionRequired | InvalidCommit | CommitRequired
    | AlreadyRunning | AlreadyUsed

  function WithoutPrefix(s: string, prefix: string): string {
    if prefix <= s then s[|prefix|..] else s
  }

  function Normalized(r: Request): Request {
    Request(
      TrimSpace(r.requestId), TrimSpace(r.tag), WithoutPrefix(TrimSpace(r.expectedVersion), "v"),
      Lower(TrimSpace(r.expectedCommit)))
  }

  predicate IsIdChar(c: char) {
    'A' <= c <= 'Z' || 'a' <= c <= 'z' || IsDigit(c) || c == '-'
  }

  predicate ValidRequestId(id: string) {
    8 <= |id| <= 64 && forall i :: 0 <= i < |id| ==> IsIdChar(id[i])
  }

  predicate Digits(s: string) {
    s != "" && forall i :: 0 <= i < |s| ==> IsDigit(s[i])
  }

  predicate TwoPart(s: string) {
    exists i | 0 <= i < |s| :: s[i] == '.' && Digits(s[..i]) && Digits(s[i + 1..])
  }

  predicate ThreePart(s: string) {
    exists i | 0 <= i < |s| :: s[i] == '.' && Digits(s[..i]) && TwoPart(s[i + 1..])
  }

  predicate AllowedTag(tag: string) {
    || tag == "edge" || tag == "latest" || Digits(tag) || TwoPart(tag)
    || (tag != "" && tag[0] == 'v' && ThreePart(tag[1..]))
  }

  predicate ValidCommit(commit: string) {
    7 <= |commit| <= 40
    && forall i :: 0 <= i < |commit| ==> IsDigit(commit[i]) || 'a' <= commit[i] <= 'f' || 'A' <= commit[i] <= 'F'
  }

  // The checks made before the lock is taken, in the order they are made.
  function Check(r: Request): (refusal: Option<Refusal>)
    ensures refusal != Some(AlreadyRunning) && refusal != Some(AlreadyUsed)
  {
    if !ValidRequestId(r.requestId) then Some(InvalidRequestId)
    else if !AllowedTag(r.tag) then Some(TagNotAllowed)
    else if r.expectedVersion == "" then Some(VersionRequired)
    else if r.expectedCommit != "" && !ValidCommit(r.expectedCommit) then Some(InvalidCommit)
    else if r.tag == "edge" && r.expectedCommit == "" then Some(CommitRequired)
    else None
  }

  // Digits but for one dot inside, and for two dots inside that are not next to each other.
  ghost predicate DotAt(s: string, i: int) {
    0 < i < |s| - 1 && s[i] == '.' && forall k :: 0 <= k < |s| && k != i ==> '0' <= s[k] <= '9'
  }

  ghost predicate DotsAt(s: string, i: int, j: int) {
    && 0 < i && i + 1 < j < |s| - 1 && s[i] == '.' && s[j] == '.'
    && forall k :: 0 <= k < |s| && k != i && k != j ==> '0' <= s[k] <= '9'
  }

  lemma TwoPartIff(s: string)
    ensures TwoPart(s) <==> exists i :: DotAt(s, i)
  {
    if TwoPart(s) {
      var i :| 0 <= i < |s| && s[i] == '.' && Digits(s[..i]) && Digits(s[i + 1..]);
      forall k | 0 <= k < |s| && k != i ensures '0' <= s[k] <= '9' {
        assert if k < i then s[k] == s[..i][k] else s[k] == s[i + 1..][k - i - 1];
      }
      assert DotAt(s, i);
    }
    if i :| DotAt(s, i) {
      assert Digits(s[..i]) && Digits(s[i + 1..]);
    }
  }

  lemma ThreePartHasDots(s: string) returns (i: int, j: int)
    requires ThreePart(s)
    ensures DotsAt(s, i, j)
  {
    i :| 0 <= i < |s| && s[i] == '.' && Digits(s[..i]) && TwoPart(s[i + 1..]);
    var rest := s[i + 1..];
    TwoPartIff(rest);
    hide TwoPart;
    var d :| DotAt(rest, d);
    j := i + 1 + d;
    forall k | 0 <= k < |s| && k != i && k != j ensures '0' <= s[k] <= '9' {
      assert if k < i then s[k] == s[..i][k] else s[k] == rest[k - i - 1];
    }
  }

  lemma DotsMakeThreePart(s: string, i: int, j: int)
    requires DotsAt(s, i, j)
    ensures ThreePart(s)
  {
    assert DotAt(s[i + 1..], j - i - 1);
    TwoPartIff(s[i + 1..]);
    hide TwoPart;
    assert Digits(s[..i]);
  }

  // The tags an update may ask for: edge, latest, and such as v1.2.3, 1 and 1.2.
  lemma AllowedTagIff(tag: string)
    ensures AllowedTag(tag) <==>
              || tag == "edge" || tag == "latest"
              || (tag != "" && forall k :: 0 <= k < |tag| ==> '0' <= tag[k] <= '9')
              || (exists i :: 0 < i < |tag| - 1 && tag[i] == '.'
                    && forall k :: 0 <= k < |tag| && k != i ==> '0' <= tag[k] <= '9')
              || (exists i, j :: 1 < i && i + 1 < j < |tag| - 1 && tag[0] == 'v' && tag[i] == '.' && tag[j] == '.'
                    && forall k :: 1 <= k < |tag| && k != i && k != j ==> '0' <= tag[k] <= '9')
  {
    TwoPartSpelled(tag);
    VersionSpelled(tag);
    hide TwoPart, ThreePart;
  }

  lemma TwoPartSpelled(s: string)
    ensures TwoPart(s) <==>
              exists i :: 0 < i < |s| - 1 && s[i] == '.' && forall k :: 0 <= k < |s| && k != i ==> '0' <= s[k] <= '9'
  {
    TwoPartIff(s);
    hide TwoPart;
    if i :| DotAt(s, i) {
      assert s[i] == '.';
    }
    if i :| 0 < i < |s| - 1 && s[i] == '.' && (forall k :: 0 <= k < |s| && k != i ==> '0' <= s[k] <= '9') {
      assert DotAt(s, i);
    }
  }

  lemma VersionSpelled(s: string)
    ensures s != "" && s[0] == 'v' && ThreePart(s[1..]) <==>
              exists i, j :: 1 < i && i + 1 < j < |s| - 1 && s[0] == 'v' && s[i] == '.' && s[j] == '.'
                && forall k :: 1 <= k < |s| && k != i && k != j ==> '0' <= s[k] <= '9'
  {
    VersionTagIff(s);
    hide ThreePart, VersionAt;
    if i, j :| VersionAt(s, i, j) {
      AtDots(s, i, j);
    } else if i, j :| 1 < i && i + 1 < j < |s| - 1 && s[0] == 'v' && s[i] == '.' && s[j] == '.'
                      && (forall k :: 1 <= k < |s| && k != i && k != j ==> '0' <= s[k] <= '9') {
      AtDots(s, i, j);
    }
  }

  lemma AtDots(s: string, i: int, j: int)
    ensures VersionAt(s, i, j) <==>
              && 1 < i && i + 1 < j < |s| - 1 && s[0] == 'v' && s[i] == '.' && s[j] == '.'
              && forall k :: 1 <= k < |s| && k != i && k != j ==> '0' <= s[k] <= '9'
  {
  }

  ghost predicate VersionAt(tag: string, i: int, j: int) {
    && 1 < i && i + 1 < j < |tag| - 1 && tag[0] == 'v' && tag[i] == '.' && tag[j] == '.'
    && forall k :: 1 <= k < |tag| && k != i && k != j ==> '0' <= tag[k] <= '9'
  }

  lemma VersionShifts(tag: string, i: int, j: int)
    requires tag != "" && tag[0] == 'v'
    ensures DotsAt(tag[1..], i - 1, j - 1) <==> VersionAt(tag, i, j)
  {
    assert forall k :: 1 <= k < |tag| ==> tag[k] == tag[1..][k - 1];
    if DotsAt(tag[1..], i - 1, j - 1) {
      forall k | 1 <= k < |tag| && k != i && k != j ensures '0' <= tag[k] <= '9' {
        assert tag[k] == tag[1..][k - 1];
      }
    }
  }

  lemma VersionTagIff(tag: string)
    ensures tag != "" && tag[0] == 'v' && ThreePart(tag[1..]) <==> exists i, j :: VersionAt(tag, i, j)
  {
    if tag != "" && tag[0] == 'v' && ThreePart(tag[1..]) {
      var i, j := ThreePartHasDots(tag[1..]);
      hide ThreePart, DotsAt, VersionAt;
      VersionShifts(tag, i + 1, j + 1);
    }
    if i, j :| VersionAt(tag, i, j) {
      VersionShifts(tag, i, j);
      hide ThreePart, DotsAt;
      DotsMakeThreePart(tag[1..], i - 1, j - 1);
    }
  }

  lemma ValidCommitIff(commit: string)
    ensures ValidCommit(Lower(commit)) <==>
              && 7 <= |commit| <= 40
              && forall i :: 0 <= i < |commit| ==>
                   '0' <= commit[i] <= '9' || 'a' <= commit[i] <= 'f' || 'A' <= commit[i] <= 'F'
  {
    assert forall i :: 0 <= i < |commit| ==> Lower(commit)[i] == LowerChar(commit[i]);
  }

  // Which requests pass the checks, and for what the others are refused: the first of the five that fails.
  lemma CheckTells(request: Request)
    ensures var id, tag, version, commit := TrimSpace(request.requestId), TrimSpace(request.tag),
                                            TrimSpace(request.expectedVersion), TrimSpace(request.expectedCommit);
            var idFits := 8 <= |id| <= 64
                          && forall c :: c in id ==>
                               'A' <= c <= 'Z' || 'a' <= c <= 'z' || '0' <= c <= '9' || c == '-';
            var hasVersion := version != "" && version != "v";
            var commitFits := commit == ""
                              || (7 <= |commit| <= 40
                                  && forall i :: 0 <= i < |commit| ==>
                                       || '0' <= commit[i] <= '9'
                                       || 'a' <= commit[i] <= 'f' || 'A' <= commit[i] <= 'F');
            var refusal := Check(Normalized(request));
            && (refusal == Some(InvalidRequestId) <==> !idFits)
            && (refusal == Some(TagNotAllowed) <==> idFits && !AllowedTag(tag))
            && (refusal == Some(VersionRequired) <==> idFits && AllowedTag(tag) && !hasVersion)
            && (refusal == Some(InvalidCommit) <==> idFits && AllowedTag(tag) && hasVersion && !commitFits)
            && (refusal == Some(CommitRequired) <==>
                  idFits && tag == "edge" && hasVersion && commit == "")
            && (refusal == None <==>
                  && idFits && AllowedTag(tag) && hasVersion && commitFits
                  && (tag == "edge" ==> commit != ""))
  {
    ValidCommitIff(TrimSpace(request.expectedCommit));
    assert ValidRequestId(TrimSpace(request.requestId)) <==>
             var id := TrimSpace(request.requestId);
             8 <= |id| <= 64 && forall c :: c in id ==> IsIdChar(c);
    assert Lower(TrimSpace(request.expectedCommit)) == "" <==> TrimSpace(request.expectedCommit) == "";
    hide TrimSpace, ValidCommit, ValidRequestId, Lower;
  }

  // The version and commit a bridge reports are the expected ones.
  predicate ArtifactMatches(version: string, commit: string, expectedVersion: string, expectedCommit: string) {
    var actual := Lower(TrimSpace(commit));
    var expected := Lower(TrimSpace(expectedCommit));
    && WithoutPrefix(version, "v") == WithoutPrefix(expectedVersion, "v")
    && (expected == "" || (actual != "" && (expected <= actual || actual <= expected)))
  }

  // The same version: equal, but for a "v" that only one of them starts with.
  predicate SameVersion(a: string, b: string) {
    a == b || (a == "v" + b && !("v" <= b)) || (b == "v" + a && !("v" <= a))
  }

  // The shorter text starts the longer one, whatever their case.
  predicate StartAlike(a: string, b: string) {
    forall i :: 0 <= i < |a| && i < |b| ==> LowerChar(a[i]) == LowerChar(b[i])
  }

  // Which artifacts are taken for the expected one: the version is the same and, unless no commit is
  // expected, the commit is known and one of the two abbreviates the other; spaces around them and their
  // case do not matter.
  lemma ArtifactMatchesIff(version: string, commit: string, expectedVersion: string, expectedCommit: string)
    ensures ArtifactMatches(version, commit, expectedVersion, expectedCommit) <==>
              && SameVersion(version, expectedVersion)
              && (TrimSpace(expectedCommit) != "" ==>
                    TrimSpace(commit) != "" && StartAlike(TrimSpace(commit), TrimSpace(expectedCommit)))
  {
    VersionsAgree(version, expectedVersion);
    PrefixesAgree(TrimSpace(commit), TrimSpace(expectedCommit));
    hide TrimSpace, WithoutPrefix;
  }

  lemma VersionsAgree(a: string, b: string)
    ensures WithoutPrefix(a, "v") == WithoutPrefix(b, "v") <==> SameVersion(a, b)
  {
    assert "v" <= a ==> a == "v" + a[1..];
    assert "v" <= b ==> b == "v" + b[1..];
  }

  lemma PrefixesAgree(a: string, b: string)
    ensures Lower(a) <= Lower(b) || Lower(b) <= Lower(a) <==> StartAlike(a, b)
  {
    if StartAlike(a, b) {
      if |a| <= |b| {
        assert Lower(a) == Lower(b)[..|a|];
      } else {
        assert Lower(b) == Lower(a)[..|b|];
      }
    }
    if Lower(a) <= Lower(b) || Lower(b) <= Lower(a) {
      forall i | 0 <= i < |a| && i < |b| ensures LowerChar(a[i]) == LowerChar(b[i]) {
        assert Lower(a)[i] == Lower(b)[i];
      }
    }
  }

  function UsedSet(used: seq<string>): set<string> {
    set i | i in used
  }

  lemma InUsedSet(used: seq<string>, id: string)
    ensures id in UsedSet(used) <==> id in used
  {
  }

  lemma AmongLast(history: seq<string>, id: string)
    ensures id in LastUsed(history) <==>
              exists k :: 0 <= k < |history| && k >= |history| - 50 && history[k] == id
  {
    if k :| 0 <= k < |history| && k >= |history| - 50 && history[k] == id {
      assert LastUsed(history)[if |history| <= 50 then k else k - (|history| - 50)] == id;
    }
  }

  // Remembering an ID drops the oldest one once fifty are kept.
  lemma RememberId(accepted: seq<string>, id: string)
    requires Distinct(LastUsed(accepted)) && id !in LastUsed(accepted)
    ensures var kept := LastUsed(accepted) + [id];
            && LastUsed(accepted + [id]) == (if |kept| > MAX_USED_IDS then kept[|kept| - MAX_USED_IDS..] else kept)
            && Distinct(LastUsed(accepted + [id]))
            && UsedSet(LastUsed(accepted + [id])) ==
               UsedSet(LastUsed(accepted)) - (if |kept| > MAX_USED_IDS then {kept[0]} else {}) + {id}
  {
    var kept := LastUsed(accepted) + [id];
    var next := LastUsed(accepted + [id]);
    assert next == if |kept| > MAX_USED_IDS then kept[1..] else kept;
    hide LastUsed;
    if |kept| > MAX_USED_IDS {
      DroppedFirst(kept);
      assert UsedSet(kept) == UsedSet(LastUsed(accepted)) + {id};
    }
  }

  lemma DroppedFirst(kept: seq<string>)
    requires kept != [] && Distinct(kept)
    ensures Distinct(kept[1..]) && UsedSet(kept[1..]) == UsedSet(kept) - {kept[0]}
  {
    assert kept == [kept[0]] + kept[1..];
    assert kept[0] !in kept[1..];
  }
}
