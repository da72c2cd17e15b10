/** The study session: ten unstudied words at a time until every word has been seen. */
module WordStudy {
  import opened Seqs

  datatype Word = Word(id: string, english: string, korean: string, level: string)

  /** The ids of `ws`. */
  function Ids(ws: seq<Word>): (r: set<string>)
    ensures forall i :: 0 <= i < |ws| ==> ws[i].id in r
    ensures |r| <= |ws|
  {
    if ws == [] then {} else {ws[0].id} + Ids(ws[1..])
  }

  /** Every id in `Ids(ws)` is the id of some word of `ws`. */
  lemma {:induction false} IdsOnlyOf(ws: seq<Word>, id: string)
    requires id in Ids(ws)
    ensures exists i :: 0 <= i < |ws| && ws[i].id == id
  {
    if ws[0].id != id {
      IdsOnlyOf(ws[1..], id);
      var i :| 0 <= i < |ws| - 1 && ws[1..][i].id == id;
      assert ws[i + 1].id == id;
    }
  }

  /** Taking one more word adds its id. */
  lemma {:induction false} IdsSnoc(ws: seq<Word>, k: nat)
    requires k < |ws|
    ensures Ids(ws[..k + 1]) == Ids(ws[..k]) + {ws[k].id}
  {
    if k > 0 {
      IdsSnoc(ws[1..], k - 1);
      assert ws[..k + 1][1..] == ws[1..][..k];
      assert ws[..k][1..] == ws[1..][..k - 1];
    }
  }

  /** Words drawn from `all` carry ids of `all`. */
  lemma IdsOfKnownWords(ws: seq<Word>, all: seq<Word>)
    requires forall w :: w in ws ==> w in all
    ensures Ids(ws) <= Ids(all)
  {
    forall id | id in Ids(ws) ensures id in Ids(all) {
      IdsOnlyOf(ws, id);
      var i :| 0 <= i < |ws| && ws[i].id == id;
      assert ws[i] in all;
      var j :| 0 <= j < |all| && all[j] == ws[i];
    }
  }

  /** No two words share an id. */
  predicate DistinctIds(ws: seq<Word>)
  {
    forall i, j :: 0 <= i < j < |ws| ==> ws[i].id != ws[j].id
  }

  /** `allWords.filter((word) => !studiedWordIds.has(word.id))`. */
  function Available(all: seq<Word>, studied: set<string>): (r: seq<Word>)
    ensures forall w :: w in r <==> w in all && w.id !in studied
  {
    Filter(all, (w: Word) => w.id !in studied)
  }

  /**
   * `getRandomWords`: the first `count` words of `shuffled`, which stands for
   * the randomly sorted copy of the available words.
   */
  function GetRandomWords(all: seq<Word>, studied: set<string>, count: nat, shuffled: seq<Word>): (r: seq<Word>)
    requires multiset(shuffled) == multiset(Available(all, studied))
    ensures |r| == if count <= |Available(all, studied)| then count else |Available(all, studied)|
    ensures multiset(r) <= multiset(Available(all, studied))
    ensures forall w :: w in r ==> w in all && w.id !in studied
  {
    var n := if count <= |shuffled| then count else |shuffled|;
    DrawIsSubmultiset(shuffled, n, Available(all, studied));
    shuffled[..n]
  }

  lemma DrawIsSubmultiset(shuffled: seq<Word>, n: nat, available: seq<Word>)
    requires n <= |shuffled| && multiset(shuffled) == multiset(available)
    ensures |shuffled| == |available|
    ensures multiset(shuffled[..n]) <= multiset(available)
    ensures forall w :: w in shuffled[..n] ==> w in available
  {
    assert |multiset(shuffled)| == |multiset(available)|;
    assert shuffled == shuffled[..n] + shuffled[n..];
    forall w | w in shuffled[..n] ensures w in available {
      assert w in multiset(shuffled);
    }
  }

  /** A draw from words with distinct ids holds no word twice. */
  lemma {:induction false} DrawHasNoDuplicates(all: seq<Word>, studied: set<string>, count: nat, shuffled: seq<Word>)
    requires NoDuplicates(all)
    requires multiset(shuffled) == multiset(Available(all, studied))
    ensures NoDuplicates(GetRandomWords(all, studied, count, shuffled))
  {
    AvailableHasNoDuplicates(all, studied);
    SubmultisetKeepsNoDuplicates(GetRandomWords(all, studied, count, shuffled), Available(all, studied));
  }

  /** A word at two positions is counted at least twice. */
  lemma RepeatCountsTwice(r: seq<Word>, i: nat, j: nat)
    requires i < j < |r| && r[i] == r[j]
    ensures multiset(r)[r[i]] >= 2
  {
    assert r == r[..j] + r[j..];
    assert r[..j][i] == r[i];
    assert r[j..][0] == r[i];
  }

  lemma SubmultisetKeepsNoDuplicates(r: seq<Word>, s: seq<Word>)
    requires multiset(r) <= multiset(s) && NoDuplicates(s)
    ensures NoDuplicates(r)
  {
    forall i, j | 0 <= i < j < |r| ensures r[i] != r[j] {
      if r[i] == r[j] {
        RepeatCountsTwice(r, i, j);
        NoDuplicatesCountsOnce(s, r[i]);
        assert false;
      }
    }
  }

  lemma {:induction false} AvailableHasNoDuplicates(all: seq<Word>, studied: set<string>)
    requires NoDuplicates(all)
    ensures NoDuplicates(Available(all, studied))
  {
    if all != [] {
      AvailableHasNoDuplicates(all[1..], studied);
      assert NoDuplicates(all[1..]);
      assert all[0] !in all[1..];
      assert all == [all[0]] + all[1..];
    }
  }

  lemma {:induction false} NoDuplicatesCountsOnce(s: seq<Word>, x: Word)
    requires NoDuplicates(s)
    ensures multiset(s)[x] <= 1
  {
    if s != [] {
      NoDuplicatesCountsOnce(s[1..], x);
      assert s == [s[0]] + s[1..];
      assert s[0] !in s[1..];
    }
  }

  /** Forgetting an id no word carries does not change what is available. */
  lemma {:induction false} AvailableIgnoresForeignId(ws: seq<Word>, studied: set<string>, x: string)
    requires x !in Ids(ws)
    ensures Available(ws, studied) == Available(ws, studied - {x})
  {
    if ws != [] {
      assert ws[0].id != x;
      AvailableIgnoresForeignId(ws[1..], studied, x);
    }
  }

  /**
   * With distinct ids and only known ids studied, `allWords.length -
   * studiedWordIds.size` is the number of words still available.
   */
  lemma {:induction false} RemainingCountsUnstudied(all: seq<Word>, studied: set<string>)
    requires DistinctIds(all) && studied <= Ids(all)
    ensures |all| - |studied| == |Available(all, studied)|
  {
    if all != [] {
      var w, rest := all[0], all[1..];
      assert DistinctIds(rest);
      if w.id in Ids(rest) {
        IdsOnlyOf(rest, w.id);
        assert false;
      }
      if w.id in studied {
        var fewer := studied - {w.id};
        assert fewer <= Ids(rest);
        RemainingCountsUnstudied(rest, fewer);
        AvailableIgnoresForeignId(rest, studied, w.id);
        assert Available(all, studied) == Available(rest, studied);
      } else {
        assert studied <= Ids(rest);
        RemainingCountsUnstudied(rest, studied);
        assert Available(all, studied) == [w] + Available(rest, studied);
      }
    }
  }

  const SessionSize: nat := 10

  /** `new Set(studiedWordIds)` extended by `currentWords.forEach((word) => newStudiedIds.add(word.id))`. */
  method AddIds(studied: set<string>, ws: seq<Word>) returns (r: set<string>)
    ensures r == studied + Ids(ws)
  {
    r := studied;
    var k := 0;
    while k < |ws|
      invariant 0 <= k <= |ws|
      invariant r == studied + Ids(ws[..k])
    {
      IdsSnoc(ws, k);
      r := r + {ws[k].id};
      k := k + 1;
    }
    assert ws[..k] == ws;
  }

  class WordStudy {
    const allWords: seq<Word>
    var currentWords: seq<Word>
    var studiedWordIds: set<string>
    var currentIndex: int
    var showMeaning: bool
    var isStudying: bool

    /** Only ids of known words are ever recorded, and the session's words are known words. */
    ghost predicate Valid()
      reads this
    {
      studiedWordIds <= Ids(allWords)
      && (forall w :: w in currentWords ==> w in allWords)
      && 0 <= currentIndex
    }

    /** Nothing studied, no session running, the meaning hidden. */
    constructor (initialWords: seq<Word>)
      ensures Valid()
      ensures allWords == initialWords && currentWords == [] && studiedWordIds == {}
      ensures currentIndex == 0 && !showMeaning && !isStudying
    {
      allWords := initialWords;
      currentWords := [];
      studiedWordIds := {};
      currentIndex := 0;
      showMeaning := false;
      isStudying := false;
    }

    /** `startNewStudySession`: draw ten unstudied words and show the first, meaning hidden. */
    method StartNewStudySession(shuffled: seq<Word>)
      requires Valid()
      requires multiset(shuffled) == multiset(Available(allWords, studiedWordIds))
      modifies this
      ensures Valid()
      ensures studiedWordIds == old(studiedWordIds)
      ensures currentWords == GetRandomWords(allWords, studiedWordIds, SessionSize, shuffled)
      ensures forall w :: w in currentWords ==> w.id !in studiedWordIds
      ensures currentIndex == 0 && !showMeaning && isStudying
    {
      currentWords := GetRandomWords(allWords, studiedWordIds, SessionSize, shuffled);
      currentIndex := 0;
      showMeaning := false;
      isStudying := true;
    }

    /**
     * `handleNextWord`: hide the meaning and move on; past the last word, record
     * the session's ids, end the session, and return how many words remain,
     * starting over from nothing studied when none do.
     */
    method HandleNextWord() returns (remaining: int)
      requires Valid()
      modifies this
      ensures Valid()
      ensures !showMeaning && currentWords == old(currentWords)
      ensures old(currentIndex) < |currentWords| - 1 ==>
        currentIndex == old(currentIndex) + 1 && studiedWordIds == old(studiedWordIds)
        && isStudying == old(isStudying) && remaining == 0
      ensures old(currentIndex) >= |currentWords| - 1 ==>
        var recorded := old(studiedWordIds) + Ids(currentWords);
        remaining == |allWords| - |recorded|
        && studiedWordIds == (if remaining > 0 then recorded else {})
        && currentIndex == 0 && !isStudying
    {
      showMeaning := false;
      remaining := 0;
      if currentIndex < |currentWords| - 1 {
        currentIndex := currentIndex + 1;
        return;
      }
      var newStudiedIds := AddIds(studiedWordIds, currentWords);
      IdsOfKnownWords(currentWords, allWords);
      studiedWordIds := newStudiedIds;
      isStudying := false;
      currentIndex := 0;
      remaining := |allWords| - |newStudiedIds|;
      if remaining <= 0 {
        studiedWordIds := {};
      }
    }
  }

  /**
   * With distinct ids, a session end resets the studied set exactly when no
   * unstudied word is left, and otherwise reports how many are.
   */
  lemma ResetExactlyWhenAllStudied(all: seq<Word>, recorded: set<string>)
    requires DistinctIds(all) && recorded <= Ids(all)
    ensures |all| - |recorded| >= 0
    ensures |all| - |recorded| > 0 <==> Available(all, recorded) != []
  {
    RemainingCountsUnstudied(all, recorded);
  }
}
