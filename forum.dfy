/** The Forum page (social-versity/src/pages/Forum.jsx): liking posts, writing a new post
    through a validated form, and the category tabs. */
module Forum {
  import Lists
  import Text
  import opened Wrappers
  import opened Toasts

  datatype Post = Post(
    id: int,
    title: string,
    content: string,
    author: string,
    avatar: Option<string>,
    isAnonymous: bool,
    timestamp: string,
    category: string,
    replies: int,
    likes: int,
    liked: bool)

  const CurrentUserAvatar: string := "https://api.dicebear.com/7.x/avataaars/svg?seed=CurrentUser"

  /** The like counter agrees with the flag: never negative, and at least one (the user's own)
      while the post is liked. */
  predicate LikesConsistent(p: Post) {
    p.likes >= 0 && (p.liked ==> p.likes >= 1)
  }

  predicate AllConsistent(posts: seq<Post>) {
    forall p :: p in posts ==> LikesConsistent(p)
  }

  /** The like button on one post: flip the flag and move the counter with it. */
  function ToggledLike(p: Post): (q: Post)
    ensures q.liked == !p.liked
    ensures q.likes == if p.liked then p.likes - 1 else p.likes + 1
    ensures q == p.(liked := q.liked, likes := q.likes)
  {
    p.(liked := !p.liked, likes := if p.liked then p.likes - 1 else p.likes + 1)
  }

  /** `posts.map(post => post.id === postId ? { ...post, liked: !post.liked, likes: … } : post)`. */
  function LikeToggled(posts: seq<Post>, postId: int): (r: seq<Post>)
    ensures |r| == |posts|
    ensures forall i :: 0 <= i < |posts| && posts[i].id == postId ==> r[i] == ToggledLike(posts[i])
    ensures forall i :: 0 <= i < |posts| && posts[i].id != postId ==> r[i] == posts[i]
  {
    if posts == [] then []
    else [if posts[0].id == postId then ToggledLike(posts[0]) else posts[0]] + LikeToggled(posts[1..], postId)
  }

  /** Liking a post twice is the identity. */
  lemma {:induction false} LikeTwice(posts: seq<Post>, postId: int)
    ensures LikeToggled(LikeToggled(posts, postId), postId) == posts
  {
    if posts != [] {
      LikeTwice(posts[1..], postId);
    }
  }

  /** Liking keeps every counter consistent with its flag. */
  lemma LikePreservesConsistency(posts: seq<Post>, postId: int)
    requires AllConsistent(posts)
    ensures AllConsistent(LikeToggled(posts, postId))
  {
    var r := LikeToggled(posts, postId);
    forall q | q in r ensures LikesConsistent(q) {
      var i :| 0 <= i < |r| && r[i] == q;
      assert posts[i] in posts;
    }
  }

  /** The post `handleCreatePost` builds; `now` stands for `Date.now()`. */
  function NewPost(now: int, title: string, content: string, category: string, anonymous: bool): (p: Post)
    ensures LikesConsistent(p)
    ensures p.likes == 0 && !p.liked && p.replies == 0
    ensures p.title == title && p.content == content && p.category == category
    ensures p.isAnonymous == anonymous
    ensures p.id == now && p.timestamp == "Just now"
    ensures anonymous ==> p.author == "Anonymous" && p.avatar.None?
    ensures !anonymous ==> p.author == "Current User" && p.avatar == Some(CurrentUserAvatar)
  {
    Post(now, title, content,
         if anonymous then "Anonymous" else "Current User",
         if anonymous then None else Some(CurrentUserAvatar),
         anonymous, "Just now", category, 0, 0, false)
  }

  /** `filteredPosts`: every post under 'All', otherwise the posts of the active category. */
  function FilteredPosts(posts: seq<Post>, activeCategory: string): (r: seq<Post>)
    ensures activeCategory == "All" ==> r == posts
    ensures activeCategory != "All" ==>
      (forall p :: p in r ==> p in posts && p.category == activeCategory)
      && (forall p :: p in posts && p.category == activeCategory ==> p in r)
      && (forall p | p in posts :: multiset(r)[p] == if p.category == activeCategory then multiset(posts)[p] else 0)
    ensures Lists.IsSubsequence(r, posts)
  {
    if activeCategory == "All" then
      Lists.SubsequenceReflexive(posts);
      posts
    else Lists.Filter(posts, InCategory(activeCategory))
  }

  function InCategory(category: string): Post -> bool {
    (p: Post) => p.category == category
  }

  /** A new post shows under 'All' and under its own category, at the top. */
  lemma NewPostOnTop(p: Post, posts: seq<Post>)
    ensures FilteredPosts([p] + posts, "All")[0] == p
    ensures FilteredPosts([p] + posts, p.category)[0] == p
  {
    if p.category != "All" {
      assert ([p] + posts)[0] == p && ([p] + posts)[1..] == posts;
    }
  }

  /** The five posts the page starts with. */
  const InitialPosts: seq<Post> := [
    Post(1, "Best study spots on campus?",
         "Looking for quiet places to study between classes. Library is always packed!",
         "Anonymous", None, true, "2 hours ago", "Campus Life", 12, 24, false),
    Post(2, "Anyone taking CS 301 next semester?",
         "Wondering if anyone has tips for this class or wants to form a study group.",
         "Alex Chen", Some("https://api.dicebear.com/7.x/avataaars/svg?seed=Alex"), false, "5 hours ago",
         "Academics", 8, 15, false),
    Post(3, "Lost and Found: Blue backpack",
         "Found a blue backpack near the Student Center. Has a laptop inside. Contact me if it's yours!",
         "Sarah Johnson", Some("https://api.dicebear.com/7.x/avataaars/svg?seed=Sarah"), false, "1 day ago",
         "General", 3, 45, false),
    Post(4, "Mental health resources?",
         "Feeling overwhelmed with finals coming up. Does anyone know what mental health resources are available on campus?",
         "Anonymous", None, true, "1 day ago", "Wellness", 18, 67, false),
    Post(5, "Roommate needed for Spring semester",
         "Looking for a roommate for a 2-bedroom apartment near campus. $600/month. DM if interested!",
         "Marcus Williams", Some("https://api.dicebear.com/7.x/avataaars/svg?seed=Marcus"), false, "2 days ago",
         "Housing", 5, 12, false)
  ]

  /** The seeded posts satisfy the like invariant. */
  lemma InitialPostsConsistent()
    ensures AllConsistent(InitialPosts)
  {
  }

  class ForumPage {
    var posts: seq<Post>
    var activeCategory: string
    var isNewPostOpen: bool
    var newPostTitle: string
    var newPostContent: string
    var newPostCategory: string
    var newPostAnonymous: bool

    ghost predicate Valid()
      reads this
    {
      AllConsistent(posts)
    }

    constructor ()
      ensures Valid()
      ensures posts == InitialPosts && activeCategory == "All" && !isNewPostOpen
      ensures newPostTitle == "" && newPostContent == "" && newPostCategory == "General" && !newPostAnonymous
    {
      InitialPostsConsistent();
      posts := InitialPosts;
      activeCategory := "All";
      isNewPostOpen := false;
      newPostTitle := "";
      newPostContent := "";
      newPostCategory := "General";
      newPostAnonymous := false;
    }

    /** `handleLike(postId)`. */
    method HandleLike(postId: int)
      requires Valid()
      modifies this`posts
      ensures Valid()
      ensures posts == LikeToggled(old(posts), postId)
    {
      LikePreservesConsistency(posts, postId);
      posts := LikeToggled(posts, postId);
    }

    /** `handleCreatePost()`: with a blank title or content it only reports an error; otherwise
        it puts the new post on top, closes the dialog and resets the form. */
    method HandleCreatePost(now: int) returns (toast: ToastRequest)
      requires Valid()
      modifies this`posts, this`isNewPostOpen, this`newPostTitle, this`newPostContent
      modifies this`newPostCategory, this`newPostAnonymous
      ensures Valid()
      ensures Text.IsBlank(old(newPostTitle)) || Text.IsBlank(old(newPostContent)) ==>
        && toast == ToastRequest("Please fill in all fields", Some("error"))
        && posts == old(posts) && isNewPostOpen == old(isNewPostOpen)
        && newPostTitle == old(newPostTitle) && newPostContent == old(newPostContent)
        && newPostCategory == old(newPostCategory) && newPostAnonymous == old(newPostAnonymous)
      ensures !Text.IsBlank(old(newPostTitle)) && !Text.IsBlank(old(newPostContent)) ==>
        && toast == ToastRequest("Post created successfully!", Some("success"))
        && posts == [NewPost(now, old(newPostTitle), old(newPostContent), old(newPostCategory), old(newPostAnonymous))] + old(posts)
        && !isNewPostOpen
        && newPostTitle == "" && newPostContent == "" && newPostCategory == "General" && !newPostAnonymous
    {
      if Text.IsBlank(newPostTitle) || Text.IsBlank(newPostContent) {
        toast := ToastRequest("Please fill in all fields", Some("error"));
        return;
      }
      Publish(now);
      toast := ToastRequest("Post created successfully!", Some("success"));
    }

    /** The success path of `handleCreatePost`: the post built from the form goes on top, the
        dialog closes and the form returns to its defaults. */
    method Publish(now: int)
      requires Valid()
      modifies this`posts, this`isNewPostOpen, this`newPostTitle, this`newPostContent
      modifies this`newPostCategory, this`newPostAnonymous
      ensures Valid()
      ensures posts == [NewPost(now, old(newPostTitle), old(newPostContent), old(newPostCategory), old(newPostAnonymous))] + old(posts)
      ensures !isNewPostOpen
      ensures newPostTitle == "" && newPostContent == "" && newPostCategory == "General" && !newPostAnonymous
    {
      var post := NewPost(now, newPostTitle, newPostContent, newPostCategory, newPostAnonymous);
      posts := [post] + posts;
      isNewPostOpen := false;
      newPostTitle := "";
      newPostContent := "";
      newPostCategory := "General";
      newPostAnonymous := false;
    }
  }
}
