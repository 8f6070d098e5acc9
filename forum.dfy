/**
 * The forum page's logic: the keyword responder of the assistant chat, the
 * chat state that sending a message updates, the post filter and the
 * category colours.
 */
module Forum {
  import opened JsText

  // ---------------------------------------------------------------- the responder

  /** The answers the responder knows, one per keyword group, and the default. */
  datatype Topic = Events | Housing | Visa | Work | Banking | Health | Transport | Food | Involvement | Resources

  /** The topics of the keyword groups, in the order they are tried. */
  const Order: seq<Topic> := [Events, Housing, Visa, Work, Banking, Health, Transport, Food, Involvement]

  /** Each group's keywords. */
  function Keywords(t: Topic): seq<string> {
    match t
    case Events => ["event", "when"]
    case Housing => ["housing", "apartment", "live"]
    case Visa => ["visa", "immigration"]
    case Work => ["job", "work", "employment"]
    case Banking => ["bank", "ssn", "social security"]
    case Health => ["health", "insurance", "medical"]
    case Transport => ["transport", "bus", "car"]
    case Food => ["food", "grocery", "restaurant"]
    case Involvement => ["involve", "volunteer", "committee"]
    case Resources => []
  }

  function Answer(t: Topic): string {
    match t
    case Events => "IGSA hosts monthly social events and quarterly academic workshops. Check our Events page for the latest schedule. We announce events 2 weeks in advance via newsletter and social media. You can also join our community discussions to stay updated!"
    case Housing => "For housing, popular options include Beaver Hill graduate housing, private apartments near campus, and shared housing. Start your search 3-4 months before arrival. Check our Living in State College guide under Resources for detailed recommendations and tips from other students."
    case Visa => "For visa and immigration questions, check our Pre-Arrival resources which include visa guidelines and essential documents. The International Student Services office at Penn State is also a great resource for official guidance."
    case Work => "International students can work on-campus and may be eligible for CPT/OPT. Check our Academic Resources section and consult with International Student Services for work authorization details."
    case Banking => "For banking and SSN applications, check our Post-Arrival guide. You'll typically need to wait for your SSN before opening most bank accounts. Some banks offer accounts for international students without SSN initially."
    case Health => "Penn State requires all students to have health insurance. Check our Post-Arrival resources for health insurance information and local healthcare providers in State College."
    case Transport => "State College has CATA bus system for public transportation. Many students also use bikes or cars. Check our Living in State College guide for transportation tips and options."
    case Food => "State College has diverse dining options and several grocery stores. Check our Living in State College guide for restaurant recommendations and grocery shopping tips for international students."
    case Involvement => "There are many ways to get involved with IGSA! You can join committees, volunteer for events, attend monthly meetings, or run for executive positions. Visit our About section or contact our VP of Internal Affairs for current opportunities."
    case Resources => "That's a great question! For detailed information, I recommend checking our Resources section which has comprehensive guides for pre-arrival, post-arrival, and living in State College. You can also explore our Events page to see upcoming activities and networking opportunities."
  }

  /** Some keyword of `words` is a substring of `text`. */
  predicate Mentions(text: string, words: seq<string>) {
    exists i :: 0 <= i < |words| && Contains(text, words[i])
  }

  /** The topic of the first group from `k` on that the lowered query mentions, else `Resources`. */
  function TopicFrom(lowered: string, k: nat): Topic
    decreases |Order| - k
  {
    if k >= |Order| then Resources
    else if Mentions(lowered, Keywords(Order[k])) then Order[k]
    else TopicFrom(lowered, k + 1)
  }

  function TopicOf(query: string): Topic { TopicFrom(ToLower(query), 0) }

  /** `generateAIResponse(query)`. */
  function GenerateAIResponse(query: string): string { Answer(TopicOf(query)) }

  /** The groups that can be chosen are never the default. */
  lemma OrderedNotDefault(k: nat)
    requires k < |Order|
    ensures Order[k] != Resources
  {
    assert Order[k] in Order;
  }

  /** From `k` on, the default is chosen when no group from `k` on is mentioned. */
  lemma {:induction false} TopicFromNone(lowered: string, k: nat)
    requires k <= |Order|
    requires forall i :: k <= i < |Order| ==> !Mentions(lowered, Keywords(Order[i]))
    ensures TopicFrom(lowered, k) == Resources
    decreases |Order| - k
  {
    if k < |Order| {
      assert !Mentions(lowered, Keywords(Order[k]));
      TopicFromNone(lowered, k + 1);
    }
  }

  /** From `k` on, the default is chosen only when no group from `k` on is mentioned. */
  lemma {:induction false} TopicFromDefault(lowered: string, k: nat)
    requires k <= |Order| && TopicFrom(lowered, k) == Resources
    ensures forall i :: k <= i < |Order| ==> !Mentions(lowered, Keywords(Order[i]))
    decreases |Order| - k
  {
    if k < |Order| {
      OrderedNotDefault(k);
      assert !Mentions(lowered, Keywords(Order[k]));
      TopicFromDefault(lowered, k + 1);
      forall i | k < i < |Order| ensures !Mentions(lowered, Keywords(Order[i])) {
        assert k + 1 <= i;
      }
    }
  }

  /** Any other group chosen from `k` on is the first one mentioned from `k` on. */
  lemma {:induction false} TopicFromFirst(lowered: string, k: nat)
    requires k <= |Order|
    ensures TopicFrom(lowered, k) != Resources ==>
              exists j :: k <= j < |Order| && TopicFrom(lowered, k) == Order[j]
                          && Mentions(lowered, Keywords(Order[j]))
                          && forall i :: k <= i < j ==> !Mentions(lowered, Keywords(Order[i]))
    decreases |Order| - k
  {
    if k < |Order| {
      if Mentions(lowered, Keywords(Order[k])) {
        assert TopicFrom(lowered, k) == Order[k];
      } else {
        TopicFromFirst(lowered, k + 1);
        if TopicFrom(lowered, k + 1) != Resources {
          var j :| k + 1 <= j < |Order| && TopicFrom(lowered, k + 1) == Order[j]
                   && Mentions(lowered, Keywords(Order[j]))
                   && forall i :: k + 1 <= i < j ==> !Mentions(lowered, Keywords(Order[i]));
          assert TopicFrom(lowered, k) == Order[j];
          assert forall i :: k <= i < j ==> !Mentions(lowered, Keywords(Order[i]));
        }
      }
    }
  }

  /** The answer's topic is the first mentioned group's; the default exactly when no keyword occurs. */
  lemma ResponseIsFirstMatch(query: string)
    ensures TopicOf(query) == Resources <==>
              forall i :: 0 <= i < |Order| ==> !Mentions(ToLower(query), Keywords(Order[i]))
    ensures TopicOf(query) != Resources ==>
              exists j :: 0 <= j < |Order| && TopicOf(query) == Order[j]
                          && Mentions(ToLower(query), Keywords(Order[j]))
                          && forall i :: 0 <= i < j ==> !Mentions(ToLower(query), Keywords(Order[i]))
  {
    if forall i :: 0 <= i < |Order| ==> !Mentions(ToLower(query), Keywords(Order[i])) {
      TopicFromNone(ToLower(query), 0);
    }
    if TopicOf(query) == Resources {
      TopicFromDefault(ToLower(query), 0);
    }
    TopicFromFirst(ToLower(query), 0);
  }

  /** Any query mentioning an events keyword gets the events answer, whatever else it mentions. */
  lemma EventsFirst(query: string)
    requires Contains(ToLower(query), "event") || Contains(ToLower(query), "when")
    ensures TopicOf(query) == Events
  {
    var words := Keywords(Events);
    assert Mentions(ToLower(query), words) by {
      if Contains(ToLower(query), "event") { assert words[0] == "event"; }
      else { assert words[1] == "when"; }
    }
  }

  /** Substring matching sends "career" to the transport answer, through "car". */
  lemma CareerMeansTransport()
    ensures TopicOf("career") == Transport
  {
    var q := ToLower("career");
    assert q == "career";
    assert IndexOf(q, "car") == 0;
    assert Mentions(q, Keywords(Transport)) by { assert Keywords(Transport)[2] == "car"; }
    CareerMissesEarlierGroups();
    assert TopicFrom(q, 0) == TopicFrom(q, 1);
    assert TopicFrom(q, 1) == TopicFrom(q, 2);
    assert TopicFrom(q, 2) == TopicFrom(q, 3);
    assert TopicFrom(q, 3) == TopicFrom(q, 4);
    assert TopicFrom(q, 4) == TopicFrom(q, 5);
    assert TopicFrom(q, 5) == TopicFrom(q, 6);
    assert TopicFrom(q, 6) == Transport;
  }

  /** "career" holds no keyword of the six groups tried before transport. */
  lemma CareerMissesEarlierGroups()
    ensures !Mentions("career", Keywords(Events)) && !Mentions("career", Keywords(Housing))
    ensures !Mentions("career", Keywords(Visa)) && !Mentions("career", Keywords(Work))
    ensures !Mentions("career", Keywords(Banking)) && !Mentions("career", Keywords(Health))
  {
    assert !Mentions("career", Keywords(Events)) by {
      MissesAll("career", Keywords(Events), [1, 0]);
    }
    assert !Mentions("career", Keywords(Housing)) by {
      MissesAll("career", Keywords(Housing), [0, 1, 0]);
    }
    assert !Mentions("career", Keywords(Visa)) by {
      MissesAll("career", Keywords(Visa), [0, 0]);
    }
    assert !Mentions("career", Keywords(Work)) by {
      MissesAll("career", Keywords(Work), [0, 0, 1]);
    }
    assert !Mentions("career", Keywords(Banking)) by {
      MissesAll("career", Keywords(Banking), [0, 0, 0]);
    }
    assert !Mentions("career", Keywords(Health)) by {
      MissesAll("career", Keywords(Health), [0, 0, 0]);
    }
  }

  /** No keyword occurs when each holds, at the given position, a character the text lacks. */
  lemma MissesAll(text: string, words: seq<string>, at: seq<nat>)
    requires |at| == |words|
    requires forall i :: 0 <= i < |words| ==> at[i] < |words[i]| && words[i][at[i]] !in text
    ensures !Mentions(text, words)
  {
    forall i | 0 <= i < |words| ensures !Contains(text, words[i]) {
      AbsentChar(text, words[i], at[i]);
    }
  }

  /** A word holding a character the text lacks does not occur in it. */
  lemma AbsentChar(text: string, w: string, k: nat)
    requires k < |w| && w[k] !in text
    ensures !Contains(text, w)
  {
    forall j | 0 <= j ensures !OccursAt(text, w, j) {
      if j + |w| <= |text| {
        assert text[j..j + |w|][k] == text[j + k];
      }
    }
  }

  // ---------------------------------------------------------------- the chat

  datatype Sender = User | Bot

  datatype ChatMessage = ChatMessage(id: string, text: string, sender: Sender, timestamp: int)

  const Greeting: string := "Hi! I'm the IGSA AI assistant. I am still being developed, I will do my best to help you with any questions you have about IGSA, events, housing, or student life!"

  /** The chat's state: the messages shown and the input box's text. */
  datatype Chat = Chat(messages: seq<ChatMessage>, inputText: string)

  /**
   * The state `handleSendMessage` leaves at time `now`: nothing changes when
   * the input is blank; otherwise the user's message (its text untrimmed) and
   * the assistant's answer are appended and the input is cleared.
   */
  function AfterSend(chat: Chat, now: int): Chat {
    if Trim(chat.inputText) == "" then chat
    else
      var user := ChatMessage(IntToString(now), chat.inputText, User, now);
      var bot := ChatMessage(IntToString(now + 1), GenerateAIResponse(chat.inputText), Bot, now);
      Chat(chat.messages + [user, bot], "")
  }

  /** Sending changes the chat exactly when the input holds something other than white space. */
  lemma BlankInputIgnored(chat: Chat, now: int)
    ensures AfterSend(chat, now) == chat <==> AllSpace(chat.inputText)
  {
    if AllSpace(chat.inputText) {
      TrimPadded(chat.inputText, [], []);
      assert chat.inputText + [] + [] == chat.inputText;
    } else {
      TrimEmptyAllSpace(chat.inputText);
      assert |AfterSend(chat, now).messages| == |chat.messages| + 2;
    }
  }

  /** A send keeps every earlier message and adds the user's text, then the assistant's answer to it. */
  lemma SendAppendsTwo(chat: Chat, now: int)
    requires !AllSpace(chat.inputText)
    ensures var after := AfterSend(chat, now);
            |after.messages| == |chat.messages| + 2
            && after.messages[..|chat.messages|] == chat.messages
            && after.messages[|chat.messages|].sender == User
            && after.messages[|chat.messages|].text == chat.inputText
            && after.messages[|chat.messages| + 1].sender == Bot
            && after.messages[|chat.messages| + 1].text == GenerateAIResponse(chat.inputText)
            && after.inputText == ""
  {
    TrimEmptyAllSpace(chat.inputText);
  }

  class ForumChat {
    var messages: seq<ChatMessage>
    var inputText: string

    /** The chat opens with the assistant's greeting and an empty input. */
    constructor(now: int)
      ensures messages == [ChatMessage("1", Greeting, Bot, now)] && inputText == ""
    {
      messages := [ChatMessage("1", Greeting, Bot, now)];
      inputText := "";
    }

    /** `handleSendMessage`. */
    method HandleSendMessage(now: int)
      modifies this
      ensures Chat(messages, inputText) == AfterSend(Chat(old(messages), old(inputText)), now)
    {
      if Trim(inputText) == "" {
        return;
      }
      var user := ChatMessage(IntToString(now), inputText, User, now);
      var response := GenerateAIResponse(inputText);
      var bot := ChatMessage(IntToString(now + 1), response, Bot, now);
      messages := messages + [user, bot];
      inputText := "";
    }

    /** `handleKeyPress`: Enter without Shift sends (and its default is prevented); any other key changes nothing. */
    method HandleKeyPress(key: string, shiftKey: bool, now: int) returns (prevented: bool)
      modifies this
      ensures prevented <==> key == "Enter" && !shiftKey
      ensures prevented ==> Chat(messages, inputText) == AfterSend(Chat(old(messages), old(inputText)), now)
      ensures !prevented ==> messages == old(messages) && inputText == old(inputText)
    {
      prevented := false;
      if key == "Enter" && !shiftKey {
        prevented := true;
        HandleSendMessage(now);
      }
    }
  }

  // ---------------------------------------------------------------- the posts

  datatype ForumPost = ForumPost(
    id: int, title: string, content: string, author: string, category: string,
    replies: int, likes: int, timeAgo: string, isPinned: bool, tags: seq<string>)

  predicate MatchesCategory(post: ForumPost, selected: string) {
    selected == "All" || post.category == selected
  }

  /** The term is empty or, ignoring ASCII case, occurs in the title, the content or a tag. */
  predicate MatchesSearch(post: ForumPost, term: string) {
    var t := ToLower(term);
    term == ""
    || Contains(ToLower(post.title), t)
    || Contains(ToLower(post.content), t)
    || exists i :: 0 <= i < |post.tags| && Contains(ToLower(post.tags[i]), t)
  }

  predicate Passes(post: ForumPost, selected: string, term: string) {
    MatchesCategory(post, selected) && MatchesSearch(post, term)
  }

  /** `b` holds the elements of `a` in order, possibly with others between them. */
  predicate Subsequence<T(==)>(a: seq<T>, b: seq<T>)
    decreases |b|
  {
    if a == [] then true
    else if b == [] then false
    else if a[0] == b[0] then Subsequence(a[1..], b[1..])
    else Subsequence(a, b[1..])
  }

  /** `filteredPosts`: the posts that pass, in their original order. */
  function FilterPosts(posts: seq<ForumPost>, selected: string, term: string): (r: seq<ForumPost>)
    ensures forall p :: p in r <==> p in posts && Passes(p, selected, term)
    ensures Subsequence(r, posts)
  {
    if posts == [] then []
    else
      var rest := FilterPosts(posts[1..], selected, term);
      if Passes(posts[0], selected, term) then [posts[0]] + rest
      else
        assert rest != [] ==> rest[0] in rest && rest[0] != posts[0];
        rest
  }

  /** Case does not matter in the search term. */
  lemma {:induction false} SearchIgnoresCase(posts: seq<ForumPost>, selected: string, term: string)
    ensures FilterPosts(posts, selected, ToLower(term)) == FilterPosts(posts, selected, term)
  {
    assert ToLower(ToLower(term)) == ToLower(term);
    if posts != [] {
      SearchIgnoresCase(posts[1..], selected, term);
    }
  }

  /** Category `All` with an empty search shows every post. */
  lemma {:induction false} NoFilterShowsAll(posts: seq<ForumPost>)
    ensures FilterPosts(posts, "All", "") == posts
  {
    if posts != [] {
      NoFilterShowsAll(posts[1..]);
    }
  }

  // ---------------------------------------------------------------- categories

  datatype Category = Category(name: string, count: int, color: string)

  /** A badge's class list: its background class, a space, its text class. */
  function Badge(background: string, text: string): string { background + " " + text }

  const Categories: seq<Category> := [
    Category("All", 24, Badge("bg-gray-100", "text-gray-700")),
    Category("Academic", 8, Badge("bg-igsa-blue/10", "text-igsa-blue")),
    Category("Housing", 6, Badge("bg-igsa-green/10", "text-igsa-green")),
    Category("Jobs", 4, Badge("bg-igsa-saffron/10", "text-igsa-saffron")),
    Category("General", 6, Badge("bg-igsa-orange/10", "text-igsa-orange"))]

  /** `getCategoryColor`. */
  function CategoryColor(name: string): (r: string)
    ensures r == "text-gray-600" <==> name !in ["Academic", "Housing", "Jobs", "General"]
  {
    if name == "Academic" then "text-igsa-blue"
    else if name == "Housing" then "text-igsa-green"
    else if name == "Jobs" then "text-igsa-saffron"
    else if name == "General" then "text-igsa-orange"
    else "text-gray-600"
  }

  /** Each named category's text colour is the text class its filter button carries. */
  lemma CategoryColorsAgree()
    ensures forall i :: 1 <= i < |Categories| ==> EndsWith(Categories[i].color, CategoryColor(Categories[i].name))
  {
    forall i | 1 <= i < |Categories|
      ensures EndsWith(Categories[i].color, CategoryColor(Categories[i].name))
    {
      CategoryColorAt(i);
    }
  }

  lemma CategoryColorAt(i: nat)
    requires 1 <= i < |Categories|
    ensures EndsWith(Categories[i].color, CategoryColor(Categories[i].name))
  {
    if i == 1 {
      BadgeEndsWithText("bg-igsa-blue/10", "text-igsa-blue");
    } else if i == 2 {
      BadgeEndsWithText("bg-igsa-green/10", "text-igsa-green");
    } else if i == 3 {
      BadgeEndsWithText("bg-igsa-saffron/10", "text-igsa-saffron");
    } else {
      BadgeEndsWithText("bg-igsa-orange/10", "text-igsa-orange");
    }
  }

  /** A badge's class list ends with its text class. */
  lemma BadgeEndsWithText(background: string, text: string)
    ensures EndsWith(Badge(background, text), text)
  {
    var b := Badge(background, text);
    assert b[|b| - |text|..] == text;
  }
}
