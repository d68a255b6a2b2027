/** The learning-module catalogue (data/modules.json as read by api/modules.js) and the two
    read endpoints, which publish every module without its answer key. */
module Catalogue {
  import opened Wrappers

  /** A quiz question; `answer` is the index of the correct choice. */
  datatype QuizItem = QuizItem(question: string, choices: seq<string>, answer: int)
  datatype Module = Module(id: string, title: string, content: string, quiz: seq<QuizItem>)

  /** What a client is sent: the same module, each question without its answer. */
  datatype PublicItem = PublicItem(question: string, choices: seq<string>)
  datatype PublicModule = PublicModule(id: string, title: string, content: string, quiz: seq<PublicItem>)

  datatype ModuleResponse = ModuleFound(found: PublicModule) | ModuleError(status: int, error: string)

  function PublishQuiz(quiz: seq<QuizItem>): (r: seq<PublicItem>)
    ensures |r| == |quiz|
    ensures forall i :: 0 <= i < |quiz| ==> r[i] == PublicItem(quiz[i].question, quiz[i].choices)
  {
    if quiz == [] then [] else [PublicItem(quiz[0].question, quiz[0].choices)] + PublishQuiz(quiz[1..])
  }

  /** The projection both endpoints apply. */
  function Publish(m: Module): PublicModule {
    PublicModule(m.id, m.title, m.content, PublishQuiz(m.quiz))
  }

  /** The projection loses exactly the answers: two modules that differ only in their answer
      keys are published identically, so nothing sent can depend on an answer. */
  lemma PublishHidesAnswers(m: Module, n: Module)
    requires m.id == n.id && m.title == n.title && m.content == n.content && |m.quiz| == |n.quiz|
    requires forall i :: 0 <= i < |m.quiz| ==> m.quiz[i].question == n.quiz[i].question && m.quiz[i].choices == n.quiz[i].choices
    ensures Publish(m) == Publish(n)
  {
  }

  /** The projection keeps everything else: the module can be rebuilt from what was sent and the key. */
  lemma PublishKeepsContent(m: Module)
    ensures var p := Publish(m);
      p.id == m.id && p.title == m.title && p.content == m.content && |p.quiz| == |m.quiz| &&
      forall i :: 0 <= i < |m.quiz| ==> m.quiz[i] == QuizItem(p.quiz[i].question, p.quiz[i].choices, m.quiz[i].answer)
  {
  }

  /** `getAllModules`: every module, in catalogue order, projected. */
  function GetAllModules(catalogue: seq<Module>): (r: seq<PublicModule>)
    ensures |r| == |catalogue|
    ensures forall i :: 0 <= i < |catalogue| ==> r[i] == Publish(catalogue[i])
  {
    if catalogue == [] then [] else [Publish(catalogue[0])] + GetAllModules(catalogue[1..])
  }

  /** The first module with the identifier. */
  function FindModule(catalogue: seq<Module>, id: string): (r: Option<Module>)
    ensures r.Some? ==> r.value.id == id && r.value in catalogue
    ensures r.None? ==> forall i :: 0 <= i < |catalogue| ==> catalogue[i].id != id
    ensures forall i :: 0 <= i < |catalogue| && catalogue[i].id == id && (forall j :: 0 <= j < i ==> catalogue[j].id != id)
              ==> r == Some(catalogue[i])
  {
    if catalogue == [] then None
    else if catalogue[0].id == id then Some(catalogue[0])
    else FindModule(catalogue[1..], id)
  }

  /** `getModuleById`: the first module with that identifier, projected, or 404. */
  function GetModuleById(catalogue: seq<Module>, id: string): (r: ModuleResponse)
    ensures r.ModuleError? <==> forall i :: 0 <= i < |catalogue| ==> catalogue[i].id != id
    ensures r.ModuleError? ==> r == ModuleError(404, "Module not found")
    ensures r.ModuleFound? ==> r.found.id == id && exists m :: m in catalogue && r.found == Publish(m)
    ensures forall i :: 0 <= i < |catalogue| && catalogue[i].id == id && (forall j :: 0 <= j < i ==> catalogue[j].id != id)
              ==> r == ModuleFound(Publish(catalogue[i]))
  {
    match FindModule(catalogue, id)
    case None => ModuleError(404, "Module not found")
    case Some(m) => ModuleFound(Publish(m))
  }
}
