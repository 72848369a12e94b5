/**
 * The quiz catalog (`QUIZ`) as the Quiz screen reads it: static data, never
 * changed while the app runs, and the lookup by id made when the screen mounts.
 */
module Catalog {
  import opened Wrappers

  /** One multiple-choice question; `correct` is the index of its right alternative. */
  datatype Question = Question(title: string, alternatives: seq<string>, correct: int)

  /** One quiz of the catalog, with its questions in the order they are asked. */
  datatype Quiz = Quiz(id: string, title: string, level: int, questions: seq<Question>)

  /** Some quiz of the catalog carries `id`. */
  ghost predicate Listed(catalog: seq<Quiz>, id: string) {
    exists k :: 0 <= k < |catalog| && catalog[k].id == id
  }

  /** Position of the first quiz carrying `id`, or `|catalog|` when there is none. */
  function FirstIndex(catalog: seq<Quiz>, id: string): (k: nat)
    ensures k <= |catalog|
    ensures forall j :: 0 <= j < k ==> catalog[j].id != id
    ensures k < |catalog| ==> catalog[k].id == id
  {
    if catalog == [] then 0
    else if catalog[0].id == id then 0
    else 1 + FirstIndex(catalog[1..], id)
  }

  /**
   * `QUIZ.filter(item => item.id === id)[0]`: the first quiz whose id is `id`;
   * None where the source gets `undefined`.
   */
  function FindById(catalog: seq<Quiz>, id: string): (r: Option<Quiz>)
    ensures r.Some? <==> Listed(catalog, id)
    ensures r.Some? ==> r.value.id == id
    ensures r.Some? ==> exists k :: 0 <= k < |catalog| && catalog[k] == r.value &&
                                    forall j :: 0 <= j < k ==> catalog[j].id != id
  {
    var k := FirstIndex(catalog, id);
    if k < |catalog| then Some(catalog[k]) else None
  }
}
