/**
 * The completion record kept in localStorage under `sh_game_completed`:
 * a JSON object from `class__subject__lesson` keys to `{ ts, correct }`.
 * Game/game.js writes it (`markCompleted`) and Practice/practice.js reads
 * it (`isDone`).
 */
module Completion {
  import opened Wrappers

  /** One record: the time it was written and the number of questions the
      player got right. */
  datatype Entry = Entry(ts: int, correct: nat)

  type Store = map<string, Entry>

  /** The key both pages build from the three ids. */
  function Key(classId: string, subjectId: string, lessonId: string): string {
    classId + "__" + subjectId + "__" + lessonId
  }

  /** `markCompleted`'s new object: the parsed store (or `{}` when the saved
      text does not parse) with the entry for `key` overwritten. */
  function Marked(saved: Option<Store>, key: string, e: Entry): (r: Store)
    ensures key in r && r[key] == e
    ensures forall k :: k != key ==> (k in r <==> saved.Some? && k in saved.value)
    ensures forall k :: k != key && k in r ==> r[k] == saved.value[k]
  {
    saved.GetOr(map[])[key := e]
  }

  /** `isDone`: an entry exists under the key; a store that does not parse
      gives false. */
  predicate IsDone(saved: Option<Store>, key: string) {
    saved.Some? && key in saved.value
  }

  /** A key written by `markCompleted` is then reported done, and every
      other key keeps the answer it had, unless the old text did not parse
      (then every other entry is gone). */
  lemma DoneAfterMark(saved: Option<Store>, key: string, e: Entry, other: string)
    ensures IsDone(Some(Marked(saved, key, e)), key)
    ensures other != key ==> IsDone(Some(Marked(saved, key, e)), other) == IsDone(saved, other)
  {
  }

  /** Where two splits of one string at `"__"` disagree, the shorter
      prefix is followed by `_` inside the longer one. */
  lemma NotShorter(a: string, x: string, b: string, y: string)
    requires a + ("__" + x) == b + ("__" + y)
    ensures |a| >= |b| || b[|a|] == '_'
  {
    if |a| < |b| {
      var w := a + ("__" + x);
      assert w[|a|] == '_';
      assert w[|a|] == b[|a|];
    }
  }

  lemma SplitAtSeparator(a: string, x: string, b: string, y: string)
    requires '_' !in a && '_' !in b
    requires a + ("__" + x) == b + ("__" + y)
    ensures a == b && x == y
  {
    NotShorter(a, x, b, y);
    NotShorter(b, y, a, x);
    assert |a| == |b|;
    var w := a + ("__" + x);
    assert a == w[..|a|] == b;
    assert "__" + x == w[|a|..] == "__" + y;
    assert x == ("__" + x)[2..] == ("__" + y)[2..] == y;
  }

  /** Keys of ids without `_` in the class and subject parts identify their
      lesson: two such keys are equal exactly when the three ids are. */
  lemma {:induction false} KeyInjective(c1: string, s1: string, l1: string, c2: string, s2: string, l2: string)
    requires '_' !in c1 && '_' !in c2 && '_' !in s1 && '_' !in s2
    ensures Key(c1, s1, l1) == Key(c2, s2, l2) <==> c1 == c2 && s1 == s2 && l1 == l2
  {
    if Key(c1, s1, l1) == Key(c2, s2, l2) {
      assert Key(c1, s1, l1) == c1 + ("__" + (s1 + ("__" + l1)));
      assert Key(c2, s2, l2) == c2 + ("__" + (s2 + ("__" + l2)));
      SplitAtSeparator(c1, s1 + ("__" + l1), c2, s2 + ("__" + l2));
      SplitAtSeparator(s1, l1, s2, l2);
    }
  }

  /** localStorage's completion entry, as the text it holds parses: `None`
      when it does not parse, the empty object when it is absent. */
  class LocalStore {
    var saved: Option<Store>

    constructor(saved0: Option<Store>)
      ensures saved == saved0
    {
      saved := saved0;
    }

    /** Writes `{ ts, correct }` under the key, keeping the other entries. */
    method MarkCompleted(classId: string, subjectId: string, lessonId: string, now: int, correct: nat)
      modifies this
      ensures saved == Some(Marked(old(saved), Key(classId, subjectId, lessonId), Entry(now, correct)))
    {
      var completed: Store := map[];
      if saved.Some? {
        completed := saved.value;
      }
      var key := Key(classId, subjectId, lessonId);
      completed := completed[key := Entry(now, correct)];
      saved := Some(completed);
    }
  }
}
