/**
 Records kept in the local feed store (data/RSSFeed.java, data/RSSPost.java).
 In the app they are database objects with getters and setters; the model
 treats them as values, since nothing here updates a record in place.
 */
module RssData {

  /** One RSS item: its title and its description. */
  datatype RssPost = RssPost(title: string, description: string)

  /** A subscribed feed: display title, link (the URL it is fetched from) and its posts in order. */
  datatype RssFeed = RssFeed(title: string, link: string, posts: seq<RssPost>)

}
