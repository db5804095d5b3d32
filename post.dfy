/** The record kept for one listing entry (models/post.go). */
module Models {

  /** One post: title and link as shown, score, comment count and the
      relative age text ("3 hours ago"), kept verbatim. */
  datatype Post = Post(
    title: string,
    url: string,
    upvotes: int,
    comments: int,
    uploaded: string
  )
}
