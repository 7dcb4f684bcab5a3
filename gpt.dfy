/** The prompt assembly of `generate_new_synopsis` in `src/gpt.py` and the
    trimming of the completion it returns. The completion service is a
    parameter. */
module Gpt {
  import opened Wrappers
  import opened PyText
  import opened Utils

  /** First line of every user prompt. */
  const Header: string := "Synopses for Inspiration:\n"

  /** Instruction block appended after the last synopsis block. */
  const Instructions: string :=
    "\n    You are a talented writer with the task of crafting new synopses for a series of movies. "
    + "Each movie consists of a movie ID followed by a pair of existing synopses that are provided as inspiration. "
    + "Your objective is to generate a unique and captivating synopsis for each movie, following a specific format."
    + "\n    For each movie ID:"
    + "\n    - Blend elements from the two given synopses to create a SINGLE and NEW synopsis."
    + "\n    - Retain the core essence of the original synopses, but DO NOT COPY THEM."
    + "\n    - Adhere to this structure: \"[Invent a movie title here]: Directed by [Invent a director here]. "
    + "With [Invent a cast here]. [Your new synopsis details here].\""
    + "\n    Your focus should be on producing a single new synopsis for each movie ID."
    + "\n    "

  /** The system instruction sent with every request. */
  const SystemPrompt: string :=
    "\n    You are a movie connoisseur tasked with generating a new synopsis for a film."
    + "\n    You have been given several synopses as inspiration. Your task is to create a"
    + "\n    creative and captivating synopsis that follows the same format as the provided"
    + "\n    synopses. The goal is to come up with a synopsis that entices the audience"
    + "\n    while maintaining the essence of the original synopses."
    + "\n    "

  const ModelName: string := "gpt-3.5-turbo"

  /** How an f-string renders an optional synopsis: `None` prints as "None". */
  function Render(s: Option<string>): string {
    match s
    case None => "None"
    case Some(t) => t
  }

  /** The text one dictionary item contributes to the prompt: the f-string's
      literal pieces and replacement fields, in order. */
  function Block(e: Entry): string {
    var k := IntToString(e.movieNum);
    "Movie " + k + ":\n"
      + "Synopsis 1 for Movie " + k + ": " + Render(e.synopses.0) + "\n"
      + "Synopsis 2 for Movie " + k + ": " + Render(e.synopses.1) + "\n"
  }

  /** The rendered items of a batch, joined in insertion order. */
  function JoinAll(b: Batch, render: Entry -> string): string {
    if b == [] then [] else JoinAll(b[..|b| - 1], render) + render(b[|b| - 1])
  }

  /** The blocks of all items, in insertion order. */
  function Blocks(b: Batch): string {
    JoinAll(b, Block)
  }

  /** The user prompt the program sends for a batch. */
  function UserPrompt(b: Batch): (p: string)
    ensures |p| == |Header| + |Blocks(b)| + |Instructions|
    ensures p[..|Header|] == Header
    ensures p[|Header|..|p| - |Instructions|] == Blocks(b)
    ensures p[|p| - |Instructions|..] == Instructions
  {
    var p := Header + Blocks(b) + Instructions;
    assert p[..|Header|] == Header;
    assert p[|Header|..|p| - |Instructions|] == Blocks(b);
    p
  }

  /** An empty batch gives the header directly followed by the instructions. */
  lemma EmptyBatchPrompt()
    ensures UserPrompt([]) == Header + Instructions
  {
  }

  /** Joining a concatenation joins the two parts one after the other. */
  lemma {:induction false} JoinAllAppend(a: Batch, c: Batch, render: Entry -> string)
    ensures JoinAll(a + c, render) == JoinAll(a, render) + JoinAll(c, render)
    decreases |c|
  {
    if c == [] {
      assert a + c == a;
    } else {
      var c' := c[..|c| - 1];
      assert (a + c)[..|a + c| - 1] == a + c';
      assert (a + c)[|a + c| - 1] == c[|c| - 1];
      JoinAllAppend(a, c', render);
    }
  }

  /** A one-item batch joins to that item's text. */
  lemma JoinAllOne(y: Batch, render: Entry -> string)
    requires |y| == 1
    ensures JoinAll(y, render) == render(y[0])
  {
    assert y[..0] == [];
  }

  /** Joining three consecutive parts. */
  lemma JoinAllAppend3(x: Batch, y: Batch, z: Batch, render: Entry -> string)
    ensures JoinAll(x + y + z, render) == JoinAll(x, render) + JoinAll(y, render) + JoinAll(z, render)
  {
    JoinAllAppend(x + y, z, render);
    JoinAllAppend(x, y, render);
  }

  /** A batch is the items before `i`, item `i` and the items after it. */
  lemma SplitAround(b: Batch, i: nat)
    requires i < |b|
    ensures b == b[..i] + [b[i]] + b[i + 1..]
  {
  }

  /** Joining a prefix one item longer adds that item's text at the end. */
  lemma JoinAllSnoc(b: Batch, i: nat, render: Entry -> string)
    requires i < |b|
    ensures JoinAll(b[..i + 1], render) == JoinAll(b[..i], render) + render(b[i])
  {
    assert b[..i + 1][..i] == b[..i];
  }

  /** The i-th item's text sits between the joined items before it and the
      joined items after it. */
  lemma JoinAllAround(b: Batch, i: nat, render: Entry -> string)
    requires i < |b|
    ensures JoinAll(b, render) ==
      JoinAll(b[..i], render) + render(b[i]) + JoinAll(b[i + 1..], render)
  {
    SplitAround(b, i);
    JoinAllAppend3(b[..i], [b[i]], b[i + 1..], render);
    JoinAllOne([b[i]], render);
  }

  /** Blocks of a concatenation are the concatenation of the blocks. */
  lemma BlocksAppend(a: Batch, c: Batch)
    ensures Blocks(a + c) == Blocks(a) + Blocks(c)
  {
    JoinAllAppend(a, c, Block);
  }

  /** Where the i-th block lies in the blocks of a batch. */
  lemma BlocksAt(b: Batch, i: nat)
    requires i < |b|
    ensures var start := |Blocks(b[..i])|;
      start + |Block(b[i])| <= |Blocks(b)| &&
      Blocks(b)[start..start + |Block(b[i])|] == Block(b[i])
  {
    JoinAllAround(b, i, Block);
    var x, y, z := Blocks(b[..i]), Block(b[i]), Blocks(b[i + 1..]);
    assert (x + y + z)[|x|..|x| + |y|] == y;
  }

  /** The prompt splits around the i-th item's block: the header, the blocks
      of the items before it, its block, the blocks of the items after it and
      the instructions. */
  lemma PromptAround(b: Batch, i: nat)
    requires i < |b|
    ensures UserPrompt(b) == Header + Blocks(b[..i]) + Block(b[i]) + Blocks(b[i + 1..]) + Instructions
  {
    JoinAllAround(b, i, Block);
    Regroup(Header, Blocks(b[..i]), Block(b[i]), Blocks(b[i + 1..]), Instructions);
  }

  /** Regrouping a concatenation of five strings. */
  lemma Regroup(h: string, x: string, y: string, z: string, t: string)
    ensures h + (x + y + z) + t == h + x + y + z + t
  {
  }

  /** Build the user prompt as the program does: the header, one block per
      item appended in iteration order, then the instructions. The verbose
      flag only prints the blocks; it never changes the prompt. */
  method BuildUserPrompt(synopses: Batch, showOldSynopses: bool) returns (userPrompt: string)
    ensures userPrompt == UserPrompt(synopses)
  {
    userPrompt := Header;
    for i := 0 to |synopses|
      invariant userPrompt == Header + Blocks(synopses[..i])
    {
      var synopsisPreview := Block(synopses[i]);
      userPrompt := userPrompt + synopsisPreview;
      JoinAllSnoc(synopses, i, Block);
    }
    assert synopses[..|synopses|] == synopses;
    assert userPrompt == Header + Blocks(synopses);
    userPrompt := userPrompt + Instructions;
  }

  /** One chat message. */
  datatype Message = Message(role: string, content: string)

  /** What is sent to the completion service. */
  datatype ChatRequest = ChatRequest(model: string, messages: seq<Message>)

  /** A failure of the completion call; it propagates unchanged. */
  datatype ServiceError = ServiceError

  function Request(userPrompt: string): ChatRequest {
    ChatRequest(ModelName, [Message("system", SystemPrompt), Message("user", userPrompt)])
  }

  /** `generate_new_synopsis`: one request with the system instruction and
      the assembled prompt; the first choice's text comes back stripped.
      `complete` gives the text of the first choice, or the error. */
  method GenerateNewSynopsis(synopses: Batch, showOldSynopses: bool,
                             complete: ChatRequest -> Result<string, ServiceError>)
    returns (r: Result<string, ServiceError>)
    ensures r.Err? <==> complete(Request(UserPrompt(synopses))).Err?
    ensures r.Ok? ==> r.value == Strip(complete(Request(UserPrompt(synopses))).value)
    ensures r.Ok? ==> Unpadded(StrSpaces, r.value)
  {
    var userPrompt := BuildUserPrompt(synopses, showOldSynopses);
    var completion := complete(Request(userPrompt));
    match completion
    case Err(e) => r := Err(e);
    case Ok(text) => r := Ok(Strip(text));
  }

  /** The prompt for that batch starts, right after the header, with the
      label "Movie 1:". */
  lemma OneMoviePrompt(text: Option<string>)
    ensures var p := UserPrompt([Entry(1, (text, text))]);
      |Header| + 8 <= |p| && p[|Header|..|Header| + 8] == "Movie 1:"
  {
    var e := Entry(1, (text, text));
    JoinAllOne([e], Block);
    assert IntToString(1) == "1";
    var heading := "Movie " + IntToString(1) + ":";
    assert heading == "Movie 1:";
    assert Block(e)[..8] == heading;
    var p := UserPrompt([e]);
    assert p[|Header|..|Header| + |Block(e)|] == Block(e);
  }
}
