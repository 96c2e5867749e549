/** The code-explanation panel: the machine-learning keyword test, the mock
    explanation built from it and the explain handler. */
module ChatbotSection {
  import opened Text

  /** The alternatives of the keyword pattern, in order. */
  const MLKeywords: seq<string> :=
    ["machine learning", "neural", "ai", "model", "training", "tensorflow", "pytorch", "sklearn"]

  /** Whether some keyword of `keywords` occurs in `code`, ignoring case. */
  function MentionsAny(code: string, keywords: seq<string>): (b: bool)
    ensures b <==> exists k :: 0 <= k < |keywords| && ContainsIgnoringCase(code, keywords[k])
    decreases |keywords|
  {
    if keywords == [] then false
    else if ContainsIgnoringCase(code, keywords[0]) then true
    else
      var rest := MentionsAny(code, keywords[1..]);
      assert forall k :: 1 <= k < |keywords| ==> keywords[k] == keywords[1..][k - 1];
      rest
  }

  /** The case-insensitive test of the code against the keyword pattern. The
      pattern has no word boundaries, so "ai" matches inside any word. */
  predicate HasMLKeywords(code: string) {
    MentionsAny(code, MLKeywords)
  }

  lemma MainMentionsAI()
    ensures HasMLKeywords("int main() {}")
  {
    assert OccursAt(Lower("int main() {}"), Lower("ai"), 5);
  }

  /** A pattern occurs only where its first character does. */
  lemma ContainsHasFirstChar(s: string, p: string)
    requires |p| > 0
    ensures Contains(s, p) ==> p[0] in s
  {
    if Contains(s, p) {
      var i :| OccursAt(s, p, i);
      assert s[i..i + |p|][0] == s[i];
    }
  }

  /** A plain loop mentions no keyword: no keyword starts with a letter of it. */
  lemma PlainLoopIsGeneral()
    ensures !HasMLKeywords("while (x) x--")
  {
    var code := "while (x) x--";
    var lc := Lower(code);
    assert lc == code;
    assert forall c :: c in "mnatps" ==> c !in lc;
    forall k | 0 <= k < |MLKeywords|
      ensures !ContainsIgnoringCase(code, MLKeywords[k])
    {
      var p := Lower(MLKeywords[k]);
      assert p[0] == LowerChar(MLKeywords[k][0]);
      assert MLKeywords[k][0] in "mnatps";
      ContainsHasFirstChar(lc, p);
    }
  }

  datatype CodeExplanation = CodeExplanation(
    explanation: string, workflowDiagram: string, neuralDiagram: Option<string>, results: string)

  const FibonacciResults: string :=
    "First 10 Fibonacci numbers: " + "0, 1, 1, 2, 3, 5, 8, 13, 21, 34"

  /** The explanation sentence for the two kinds of code. */
  function ExplanationText(ml: bool): string {
    "This code appears to be a "
    + (if ml then "machine learning" else "general programming")
    + " implementation. The code structure follows standard programming patterns"
    + " with proper variable declarations and control flow. "
    + (if ml then "It includes AI/ML specific operations for data processing and model training."
       else "It demonstrates algorithmic problem-solving techniques.")
  }

  /** The object the handler stores for `code`. */
  function Explain(code: string): (e: CodeExplanation)
    ensures e.explanation == ExplanationText(HasMLKeywords(code))
    ensures e.workflowDiagram == (if HasMLKeywords(code) then "ML Workflow" else "Standard Workflow")
    ensures e.neuralDiagram.Some? <==> HasMLKeywords(code)
    ensures e.neuralDiagram.Some? ==> e.neuralDiagram.value == "Neural Network Architecture"
    ensures e.results == FibonacciResults
  {
    var ml := HasMLKeywords(code);
    CodeExplanation(
      ExplanationText(ml),
      if ml then "ML Workflow" else "Standard Workflow",
      if ml then Some("Neural Network Architecture") else None,
      FibonacciResults)
  }

  /** Two inputs classified alike get the very same explanation: nothing else
      of the input reaches it. */
  lemma ExplanationDependsOnlyOnClass(a: string, b: string)
    requires HasMLKeywords(a) == HasMLKeywords(b)
    ensures Explain(a) == Explain(b)
  {
  }

  /** The panel's state. The handler is split at its `await`: `HandleExplainCode`
      runs up to the delay and `ResumeExplainCode` after it, on the code the
      handler's closure captured (`requestedCode`). */
  class ChatbotPanel {
    var code: string
    var explanation: Option<CodeExplanation>
    var isLoading: bool
    var requestedCode: string

    constructor ()
      ensures code == "" && explanation == None && !isLoading && requestedCode == ""
    {
      code, explanation, isLoading, requestedCode := "", None, false, "";
    }

    /** `handleExplainCode` up to its delay: whitespace-only code changes
        nothing; other code starts loading. */
    method HandleExplainCode() returns (suspended: bool)
      modifies this
      ensures suspended <==> !IsBlank(old(code))
      ensures !suspended ==>
        explanation == old(explanation) && isLoading == old(isLoading)
        && requestedCode == old(requestedCode)
      ensures suspended ==>
        isLoading && requestedCode == old(code) && explanation == old(explanation)
      ensures code == old(code)
    {
      TrimEmptyIffBlank(code);
      if Trim(code) == "" {
        return false;
      }
      isLoading := true;
      requestedCode := code;
      return true;
    }

    /** `handleExplainCode` after its delay: store the explanation, stop loading. */
    method ResumeExplainCode()
      requires isLoading
      modifies this
      ensures explanation == Some(Explain(old(requestedCode)))
      ensures !isLoading
      ensures code == old(code) && requestedCode == old(requestedCode)
    {
      explanation := Some(Explain(requestedCode));
      isLoading := false;
    }
  }
}
