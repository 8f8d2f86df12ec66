/** The response messages of messages/messages.js. */
module Messages {

  /** The object literal names INVALID_ID twice; the later value, "No ID Found", is the one in effect. */
  const InvalidId: string := "No ID Found"
  const DogNotFound: string := "Dog not found"
  const FoodNotFound: string := "Food not found"

  const DogCreated: string := "Dog successfully created"
  const DogUpdated: string := "Dog successfully updated"
  const DogDeleted: string := "Dog successfully deleted"
  const DogFound: string := "Dog found"
  const DogList: string := "All Dog's fetched successfully"
  const FoodCreated: string := "Food successfully created"
  const FoodUpdated: string := "Food successfully updated"
  const FoodDeleted: string := "Food successfully deleted"
  const FoodFound: string := "Food found"
  const ServerError: string := "No server found"
}
