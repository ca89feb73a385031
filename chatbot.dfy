/**
 * The chat responder of chatbot.py, `get_chatbot_response`: normalise the
 * message, answer a greeting or a farewell first, otherwise pick the topic
 * whose keyword phrases occur most often (earliest topic on ties) and answer
 * from its knowledge-base entry followed by its follow-up question, or fall
 * back to a contextual reply.  Each `random.choice` becomes the index `choice`.
 */
module Chatbot {
  import opened Wrappers
  import opened Text
  import opened ChatTables

  /** Every topic has this many candidate answers. */
  const AnswersPerTopic := 3

  function TopicName(k: nat): string
    requires k < |TopicKeywords|
  {
    TopicKeywords[k].0
  }

  /** The knowledge base and the follow-up table have the same topics. */
  lemma TableKeysAgree()
    ensures Knowledge.Keys == FollowUps.Keys
  {
  }

  /** Every topic the scorer can pick has a knowledge-base entry and a follow-up question. */
  lemma TopicNamesInTables()
    ensures |TopicKeywords| == 16
    ensures forall k :: 0 <= k < |TopicKeywords| ==> TopicName(k) != "" && TopicName(k) in Knowledge && TopicName(k) in FollowUps
  {
  }

  /** Every knowledge-base entry holds three candidate answers. */
  lemma AnswerCounts()
    ensures forall topic :: topic in Knowledge ==> |Knowledge[topic]| == AnswersPerTopic
  {
  }

  /** `topic_keywords` lists each topic once. */
  lemma TopicNamesDistinct()
    ensures forall i, j :: 0 <= i < j < |TopicKeywords| ==> TopicName(i) != TopicName(j)
  {
  }

  /** A topic table: each entry is a topic name and its keyword phrases. */
  type Topics = seq<(string, seq<string>)>

  /**
   * Every topic of `topics` is a non-empty name with an entry of three answers
   * in `knowledge` and a follow-up question in `followUps`.
   */
  ghost predicate TablesAgree(topics: Topics, knowledge: map<string, seq<string>>, followUps: map<string, string>)
  {
    forall k :: 0 <= k < |topics| ==>
      && topics[k].0 != "" && topics[k].0 in knowledge && topics[k].0 in followUps
      && |knowledge[topics[k].0]| == AnswersPerTopic
  }

  /**
   * The three topic tables agree: a topic the scorer picks always passes the
   * test against `sleep_apnea_knowledge`, has three answers to choose from and
   * has an entry in `follow_ups`.
   */
  lemma TopicTablesAgree()
    ensures TablesAgree(TopicKeywords, Knowledge, FollowUps)
  {
    TopicNamesInTables();
    AnswerCounts();
  }

  // ---------------------------------------------------------------------
  // Normalisation and scoring
  // ---------------------------------------------------------------------

  /**
   * `user_input.lower().strip()`: the lower-cased input with the whitespace
   * at both ends cut off.
   */
  function Normalize(userInput: string): (text: string)
    ensures StrippedAt(Lower(userInput), text, |userInput| - |TrimStart(Lower(userInput))|)
    ensures |text| <= |userInput|
    ensures forall i :: 0 <= i < |text| ==> !IsUpper(text[i])
    ensures text != [] ==> !IsSpace(text[0]) && !IsSpace(text[|text| - 1])
  {
    StripKeepsLowerCase(Lower(userInput));
    Strip(Lower(userInput))
  }

  /** A message that is its own normal form: lower case, nothing to strip. */
  lemma NormalizeFixesNormalText(text: string)
    requires forall i :: 0 <= i < |text| ==> !IsUpper(text[i])
    requires text != [] ==> !IsSpace(text[0]) && !IsSpace(text[|text| - 1])
    ensures Normalize(text) == text
  {
    LowerFixesLowerCase(text);
    if text != [] {
      assert TrimStart(text) == text;
      assert TrimEnd(text) == text;
    }
  }

  /** Normalising twice is normalising once. */
  lemma NormalizeIdempotent(userInput: string)
    ensures Normalize(Normalize(userInput)) == Normalize(userInput)
  {
    NormalizeFixesNormalText(Normalize(userInput));
  }

  /** `match_score` of topic k: the number of its keyword phrases that occur in the text. */
  function TopicScore(text: string, topics: Topics, k: nat): (score: nat)
    requires k < |topics|
    ensures score == |set i | 0 <= i < |topics[k].1| && Contains(text, topics[k].1[i])|
    ensures score <= |topics[k].1|
    ensures score == 0 <==> !ContainsAny(text, topics[k].1)
  {
    |Matches(text, topics[k].1)|
  }

  ghost predicate AnyTopicMatches(text: string, topics: Topics)
  {
    exists k :: 0 <= k < |topics| && TopicScore(text, topics, k) > 0
  }

  /**
   * Topic k is the one the loop keeps: it scores above zero, strictly above
   * every earlier topic and at least as high as every topic.
   */
  ghost predicate IsSelected(text: string, topics: Topics, k: int)
  {
    && 0 <= k < |topics|
    && TopicScore(text, topics, k) > 0
    && (forall j :: 0 <= j < k ==> TopicScore(text, topics, j) < TopicScore(text, topics, k))
    && (forall j :: 0 <= j < |topics| ==> TopicScore(text, topics, j) <= TopicScore(text, topics, k))
  }

  /** At most one topic is selected for a text: the scoring is deterministic. */
  lemma SelectionUnique(text: string, topics: Topics, k: int, k': int)
    requires IsSelected(text, topics, k) && IsSelected(text, topics, k')
    ensures k == k'
  {
  }

  /**
   * The loop over `topic_keywords`: keeps the first topic whose score beats
   * every score seen before it.
   */
  method SelectTopic(text: string, topics: Topics) returns (matched: Option<string>, bestScore: nat)
    ensures matched.None? <==> !AnyTopicMatches(text, topics)
    ensures matched.None? ==> bestScore == 0
    ensures matched.Some? ==>
      exists k :: IsSelected(text, topics, k) && matched.value == topics[k].0 && bestScore == TopicScore(text, topics, k)
  {
    matched := None;
    bestScore := 0;
    ghost var best := 0;
    for i := 0 to |topics|
      invariant matched.None? <==> bestScore == 0
      invariant matched.None? ==> forall j :: 0 <= j < i ==> TopicScore(text, topics, j) == 0
      invariant matched.Some? ==>
        && 0 <= best < i
        && matched.value == topics[best].0
        && bestScore == TopicScore(text, topics, best)
        && (forall j :: 0 <= j < best ==> TopicScore(text, topics, j) < bestScore)
        && (forall j :: 0 <= j < i ==> TopicScore(text, topics, j) <= bestScore)
    {
      var matchScore := TopicScore(text, topics, i);
      if matchScore > bestScore {
        bestScore := matchScore;
        matched := Some(topics[i].0);
        best := i;
      }
    }
    if matched.Some? {
      assert IsSelected(text, topics, best);
    }
  }

  // ---------------------------------------------------------------------
  // The reply
  // ---------------------------------------------------------------------

  /** How many candidates the `random.choice` of the branch the text takes picks from. */
  ghost function ChoiceCount(text: string): (n: nat)
    ensures AnswersPerTopic <= n <= 5
  {
    if ContainsAny(text, GreetingWords) then |Greetings|
    else if ContainsAny(text, FarewellWords) then |Farewells|
    else if AnyTopicMatches(text, TopicKeywords) then AnswersPerTopic
    else |ContextualResponses|
  }

  /**
   * The reply for topic k: answer number `choice` of the topic, a space, and
   * the topic's follow-up question, or the default question if it has none.
   */
  function TopicReply(topics: Topics, knowledge: map<string, seq<string>>, followUps: map<string, string>,
                      k: nat, choice: nat): (r: string)
    requires k < |topics| && topics[k].0 in knowledge && choice < |knowledge[topics[k].0]|
    ensures var answer := knowledge[topics[k].0][choice];
      && |answer| < |r| && r[..|answer|] == answer && r[|answer|] == ' '
      && r[|answer| + 1..] == if topics[k].0 in followUps then followUps[topics[k].0] else DefaultFollowUp
  {
    var topic := topics[k].0;
    knowledge[topic][choice] + " " + (if topic in followUps then followUps[topic] else DefaultFollowUp)
  }

  /** A phrase with a character the text lacks does not occur in it. */
  lemma AbsentChar(text: string, w: string, c: char)
    requires c in w && c !in text
    ensures !Contains(text, w)
  {
    ContainsIsSubstring(text, w);
    var j :| 0 <= j < |w| && w[j] == c;
    forall k
      ensures !OccursAt(text, w, k)
    {
      if 0 <= k && k + |w| <= |text| {
        assert text[k..k + |w|][j] == text[k + j];
      }
    }
  }

  /** A score of one: exactly the phrase at position `hit` occurs. */
  lemma SingleMatch(text: string, words: seq<string>, hit: nat)
    requires hit < |words| && Contains(text, words[hit])
    requires forall i :: 0 <= i < |words| && i != hit ==> !Contains(text, words[i])
    ensures |Matches(text, words)| == 1
  {
    assert (set i | 0 <= i < |words| && Contains(text, words[i])) == {hit};
  }

  lemma TherapyFound(text: string)
    requires text == "therapy"
    ensures Contains(text, "therapy")
  {
    assert OccursAt(text, "therapy", 0);
    ContainsIsSubstring(text, "therapy");
  }

  /** In "therapy" only the keyword "therapy" of `treatment` occurs. */
  lemma TherapyScoresTreatment(text: string, words: seq<string>)
    requires text == "therapy"
    requires words == ["treatment", "cure", "therapy", "how to treat", "management", "help", "fix", "solution"]
    ensures |Matches(text, words)| == 1
  {
    TherapyFound(text);
    AbsentChar(text, words[0], 'm');
    AbsentChar(text, words[1], 'c');
    AbsentChar(text, words[3], 'w');
    AbsentChar(text, words[4], 'm');
    AbsentChar(text, words[5], 'l');
    AbsentChar(text, words[6], 'f');
    AbsentChar(text, words[7], 's');
    SingleMatch(text, words, 2);
  }

  /** In "therapy" only the keyword "therapy" of `cpap` occurs. */
  lemma TherapyScoresCpap(text: string, words: seq<string>)
    requires text == "therapy"
    requires words == ["cpap", "machine", "device", "mask", "therapy", "treatment", "equipment", "appliance"]
    ensures |Matches(text, words)| == 1
  {
    TherapyFound(text);
    AbsentChar(text, words[0], 'c');
    AbsentChar(text, words[1], 'm');
    AbsentChar(text, words[2], 'd');
    AbsentChar(text, words[3], 'm');
    AbsentChar(text, words[5], 'm');
    AbsentChar(text, words[6], 'q');
    AbsentChar(text, words[7], 'l');
    SingleMatch(text, words, 4);
  }

  /** The keyword phrases of `treatment` and `cpap`, the two topics that share "therapy". */
  lemma TreatmentAndCpapKeywords()
    ensures TopicName(3) == "treatment" && TopicName(9) == "cpap"
    ensures TopicKeywords[3].1 == ["treatment", "cure", "therapy", "how to treat", "management", "help", "fix", "solution"]
    ensures TopicKeywords[9].1 == ["cpap", "machine", "device", "mask", "therapy", "treatment", "equipment", "appliance"]
  {
  }

  /** "therapy" scores one for `treatment` and one for `cpap`. */
  lemma TherapyTies(text: string)
    requires text == "therapy"
    ensures TopicScore(text, TopicKeywords, 3) == 1 && TopicScore(text, TopicKeywords, 9) == 1
  {
    TreatmentAndCpapKeywords();
    TherapyScoresTreatment(text, TopicKeywords[3].1);
    TherapyScoresCpap(text, TopicKeywords[9].1);
  }

  /**
   * Ties go to the earlier topic: "therapy" is a keyword of both `treatment`
   * and `cpap`, and the loop's strict `>` keeps `treatment`, which comes
   * first, so `cpap` is not selected.
   */
  lemma TieGoesToEarlierTopic(text: string)
    requires text == "therapy"
    ensures TopicName(3) == "treatment" && TopicName(9) == "cpap"
    ensures TopicScore(text, TopicKeywords, 3) == TopicScore(text, TopicKeywords, 9) > 0
    ensures !IsSelected(text, TopicKeywords, 9)
  {
    TreatmentAndCpapKeywords();
    TherapyTies(text);
    assert !(TopicScore(text, TopicKeywords, 3) < TopicScore(text, TopicKeywords, 9));
  }

  /** Any message in which "hi" occurs counts as a greeting. */
  lemma HiIsGreeting(text: string)
    requires Contains(text, "hi")
    ensures ContainsAny(text, GreetingWords)
  {
    assert GreetingWords[0] == "hi";
  }

  /**
   * The greeting test is a plain substring test, so "hi" is found inside
   * "child", "children" and "machine": a message naming one of these keyword
   * phrases of the `children` and `cpap` topics is always answered with a
   * greeting, and those phrases never contribute to a topic's reply.
   */
  lemma ShadowedKeywordsAreGreetings(text: string)
    requires Contains(text, "child") || Contains(text, "machine")
    ensures ContainsAny(text, GreetingWords)
  {
    assert "child"[1..3] == "hi" && "machine"[3..5] == "hi";
    assert OccursAt("child", "hi", 1) && OccursAt("machine", "hi", 3);
    ContainsIsSubstring("child", "hi");
    ContainsIsSubstring("machine", "hi");
    if Contains(text, "child") {
      ContainsTransitive(text, "child", "hi");
    } else {
      ContainsTransitive(text, "machine", "hi");
    }
    HiIsGreeting(text);
  }

  lemma HiThereMentionsHi(text: string)
    requires text == "hi there"
    ensures Contains(text, "hi")
  {
    assert text[0..2] == "hi";
    assert OccursAt(text, "hi", 0);
    ContainsIsSubstring(text, "hi");
  }

  /** "hi there" is answered with a greeting before any topic is scored. */
  lemma HiThereIsGreeting(userInput: string)
    requires userInput == "hi there"
    ensures ContainsAny(Normalize(userInput), GreetingWords)
  {
    NormalizeFixesNormalText(userInput);
    HiThereMentionsHi(userInput);
    HiIsGreeting(userInput);
  }

  lemma NormalizeChildrenQuestion(userInput: string)
    requires userInput == "Is sleep apnea common in Children?"
    ensures Normalize(userInput) == "is sleep apnea common in children?"
  {
    var text := "is sleep apnea common in children?";
    var lowered := Lower(userInput);
    assert lowered[0] == 'i' && lowered[25] == 'c';
    assert forall i :: 0 <= i < |text| && i != 0 && i != 25 ==> !IsUpper(userInput[i]) && text[i] == userInput[i];
    assert lowered == text;
    NormalizeFixesNormalText(text);
  }

  lemma ChildMentioned(text: string)
    requires text == "is sleep apnea common in children?"
    ensures Contains(text, "child")
  {
    assert text[25..30] == "child";
    assert OccursAt(text, "child", 25);
    ContainsIsSubstring(text, "child");
  }

  /** A question about children, as it reaches the responder, is taken for a greeting. */
  lemma ChildrenQuestionIsGreeting(userInput: string)
    requires userInput == "Is sleep apnea common in Children?"
    ensures ContainsAny(Normalize(userInput), GreetingWords)
  {
    NormalizeChildrenQuestion(userInput);
    ChildMentioned(Normalize(userInput));
    ShadowedKeywordsAreGreetings(Normalize(userInput));
  }

  /**
   * The tail of `get_chatbot_response` once the topic loop has run: the
   * matched topic's answer number `choice` followed by its follow-up
   * question, or contextual reply number `choice` when no topic matched.
   */
  method AnswerTopic(text: string, topics: Topics, knowledge: map<string, seq<string>>, followUps: map<string, string>,
                     matched: Option<string>, choice: nat) returns (response: string)
    requires TablesAgree(topics, knowledge, followUps)
    requires matched.None? <==> !AnyTopicMatches(text, topics)
    requires matched.Some? ==> exists k :: IsSelected(text, topics, k) && matched.value == topics[k].0
    requires choice < if matched.Some? then AnswersPerTopic else |ContextualResponses|
    ensures matched.Some? ==> exists k :: IsSelected(text, topics, k) && response == TopicReply(topics, knowledge, followUps, k, choice)
    ensures matched.None? ==> response == ContextualResponses[choice]
  {
    if matched.Some? && matched.value != "" && matched.value in knowledge {
      ghost var k :| IsSelected(text, topics, k) && matched.value == topics[k].0;
      var reply := knowledge[matched.value][choice];
      var followUp := if matched.value in followUps then followUps[matched.value] else DefaultFollowUp;
      assert reply + " " + followUp == TopicReply(topics, knowledge, followUps, k, choice);
      return reply + " " + followUp;
    }
    return ContextualResponses[choice];
  }

  /**
   * `get_chatbot_response` with each `random.choice` replaced by the index
   * `choice` into the list that branch draws from.
   */
  method GetChatbotResponse(userInput: string, choice: nat) returns (response: string)
    requires choice < ChoiceCount(Normalize(userInput))
    ensures var text := Normalize(userInput);
      ContainsAny(text, GreetingWords) ==> response == Greetings[choice]
    ensures var text := Normalize(userInput);
      !ContainsAny(text, GreetingWords) && ContainsAny(text, FarewellWords) ==> response == Farewells[choice]
    ensures var text := Normalize(userInput);
      !ContainsAny(text, GreetingWords) && !ContainsAny(text, FarewellWords) && AnyTopicMatches(text, TopicKeywords) ==>
        exists k :: IsSelected(text, TopicKeywords, k) && TopicName(k) in Knowledge && choice < |Knowledge[TopicName(k)]|
          && response == TopicReply(TopicKeywords, Knowledge, FollowUps, k, choice)
    ensures var text := Normalize(userInput);
      !ContainsAny(text, GreetingWords) && !ContainsAny(text, FarewellWords) && !AnyTopicMatches(text, TopicKeywords) ==>
        response == ContextualResponses[choice]
  {
    var text := Normalize(userInput);
    if ContainsAny(text, GreetingWords) {
      return Greetings[choice];
    }
    if ContainsAny(text, FarewellWords) {
      return Farewells[choice];
    }
    var matched, _ := SelectTopic(text, TopicKeywords);
    TopicTablesAgree();
    response := AnswerTopic(text, TopicKeywords, Knowledge, FollowUps, matched, choice);
  }
}
